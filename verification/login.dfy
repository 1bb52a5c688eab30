/** The admin login: a single password fixed in the page. */
module Login {

  /** What the login form holds. */
  datatype State = State(password: string, error: string)

  /** The admin password. */
  const AdminPassword: string := "password123"

  /** The message shown on a wrong password. */
  const WrongPassword: string := "パスワードが違います。"

  /** `handleSubmit`: the exact password signs in and clears the error; any other shows the
      error and clears the typed password. */
  function Submit(st: State): (r: (State, bool))
    ensures r.1 <==> st.password == AdminPassword
    ensures r.1 ==> r.0 == st.(error := "")
    ensures !r.1 ==> r.0 == State("", WrongPassword)
  {
    if st.password == AdminPassword then (st.(error := ""), true) else (State("", WrongPassword), false)
  }

  /** A refused password is cleared, so submitting again without typing is refused again; the
      exact password is accepted whatever the form held before. */
  lemma RetryWithoutTypingFails(st: State, error: string)
    requires !Submit(st).1
    ensures !Submit(Submit(st).0).1
    ensures Submit(State(AdminPassword, error)).1
  {
  }
}
