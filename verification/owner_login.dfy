/** The owner login: a property's owner signs in with the user name and password stored on
    that property. */
module OwnerLogin {
  import opened Wrappers
  import opened Types
  import opened Seqs
  import Repository

  /** What the login form holds. */
  datatype State = State(username: string, password: string, error: string)

  /** The message shown when no property matches. */
  const BadCredentials: string := "ユーザー名またはパスワードが違います。"

  /** The test `p.ownerUsername === username && p.ownerPassword === password`. */
  function Owns(username: string, password: string): Property -> bool {
    (p: Property) => p.ownerUsername == username && p.ownerPassword == password
  }

  /** No property before position `k` has these credentials. */
  predicate NoneOwnedBefore(props: seq<Property>, k: int, username: string, password: string)
    requires k <= |props|
  {
    forall j :: 0 <= j < k ==> props[j].ownerUsername != username || props[j].ownerPassword != password
  }

  /** `properties.find(...)`: the first property whose stored user name and password both equal
      the typed ones, compared exactly. */
  function FindOwned(props: seq<Property>, username: string, password: string): (r: Option<Property>)
    ensures r.None? <==> forall i :: 0 <= i < |props| ==>
      props[i].ownerUsername != username || props[i].ownerPassword != password
    ensures r.Some? ==> r.value.ownerUsername == username && r.value.ownerPassword == password
    ensures r.Some? ==> exists k :: 0 <= k < |props| && props[k] == r.value && NoneOwnedBefore(props, k, username, password)
  {
    match FirstIndex(props, Owns(username, password))
    case None => None
    case Some(k) =>
      assert Owns(username, password)(props[k]);
      Some(props[k])
  }

  /** `handleSubmit`: on a match the error clears and the property is signed in; otherwise the
      error shows and the password is cleared, the user name kept. */
  function Submit(st: State, props: seq<Property>): (r: (State, Option<Property>))
    ensures r.1 == FindOwned(props, st.username, st.password)
    ensures r.1.Some? ==> r.0 == st.(error := "")
    ensures r.1.None? ==> r.0 == State(st.username, "", BadCredentials)
  {
    match FindOwned(props, st.username, st.password)
    case Some(p) => (st.(error := ""), Some(p))
    case None => (State(st.username, "", BadCredentials), None)
  }

  /** After a refused attempt a second submission without retyping is refused too, unless some
      property has an empty password. */
  lemma RetryWithoutTypingFails(st: State, props: seq<Property>)
    requires Submit(st, props).1.None?
    requires forall i :: 0 <= i < |props| ==> props[i].ownerPassword != ""
    ensures Submit(Submit(st, props).0, props).1.None?
  {
  }

  /** Once a property is saved, its owner can sign in with its stored credentials, and the
      property signed in carries those credentials. */
  lemma SavedOwnerCanSignIn(props: seq<Property>, data: Property)
    ensures var r := FindOwned(Repository.SaveProperty(props, data), data.ownerUsername, data.ownerPassword);
      r.Some? && r.value.ownerUsername == data.ownerUsername && r.value.ownerPassword == data.ownerPassword
  {
    var saved := Repository.SaveProperty(props, data);
    Repository.SaveThenFind(props, data);
    var k := Repository.IndexOfProperty(saved, data.id).value;
    assert saved[k] == data;
  }
}
