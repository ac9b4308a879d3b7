/** The submit handler of `SignupForm` (src/components/auth/SignupForm.tsx:19-43):
    the two ordered checks on the passwords, then `signup` with the loading flag
    raised around the call. */
module Signup {
  import opened Wrappers
  import opened Types
  import opened Session

  const MismatchError := "Passwords don't match"
  const ShortPasswordError := "Password must be at least 6 characters"

  /** The message the checks produce, or `None` when `signup` may be called.
      The mismatch check comes first. */
  function Validate(password: string, confirmPassword: string): (r: Option<string>)
    ensures r.None? <==> password == confirmPassword && |password| >= 6
    ensures password != confirmPassword ==> r == Some(MismatchError)
    ensures password == confirmPassword && |password| < 6 ==> r == Some(ShortPasswordError)
  {
    if password != confirmPassword then Some(MismatchError)
    else if |password| < 6 then Some(ShortPasswordError)
    else None
  }

  /** One recorded call of `signup`: its arguments and the loading flag at the call. */
  datatype SignupCall = SignupCall(email: string, password: string, name: string, loading: bool)

  class SignupForm {
    var error: string
    var isLoading: bool
    /** Every `signup` call this form has made, in order. */
    ghost var calls: seq<SignupCall>

    constructor ()
      ensures error == "" && !isLoading && calls == []
    {
      error := "";
      isLoading := false;
      calls := [];
    }

    method HandleSubmit(name: string, email: string, password: string, confirmPassword: string,
                        auth: AuthProvider, idStamp: string, tokenStamp: string, serialize: User -> string)
      modifies this, auth
      ensures error == Validate(password, confirmPassword).GetOr("")
      ensures Validate(password, confirmPassword).Some? ==>
        && isLoading == old(isLoading) && calls == old(calls)
        && auth.authState == old(auth.authState) && auth.storage == old(auth.storage)
      ensures Validate(password, confirmPassword).None? ==>
        && !isLoading
        && calls == old(calls) + [SignupCall(email, password, name, true)]
        && auth.authState == SignedIn(SignupUser(email, name, idStamp), MockToken(tokenStamp))
        && auth.storage == Persist(old(auth.storage), MockToken(tokenStamp), serialize(SignupUser(email, name, idStamp)))
    {
      error := "";
      if password != confirmPassword {
        error := MismatchError;
        return;
      }
      if |password| < 6 {
        error := ShortPasswordError;
        return;
      }
      isLoading := true;
      calls := calls + [SignupCall(email, password, name, isLoading)];
      auth.Signup(email, password, name, idStamp, tokenStamp, serialize);
      isLoading := false;
    }
  }
}
