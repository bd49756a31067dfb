/** The users collection and its lookup by e-mail address. */
module Users {
  import opened Wrappers

  /** A user as the client sees it; `email` is the attribute the lookup compares. */
  datatype User = User(id: nat, email: string)

  /** Position `i` holds the first user of `users` whose e-mail is `email`. */
  predicate IsFirstWithEmail(users: seq<User>, email: string, i: int)
  {
    0 <= i < |users| && users[i].email == email &&
    forall j :: 0 <= j < i ==> users[j].email != email
  }

  /**
   * `findByEmail`: the first user, in collection order, whose e-mail equals
   * `email`; `None` when there is none. Being a function, it leaves the
   * collection as it was.
   */
  function FindByEmail(users: seq<User>, email: string): (r: Option<User>)
    ensures r.Some? ==> r.value.email == email
    ensures r.Some? ==> exists i :: IsFirstWithEmail(users, email, i) && users[i] == r.value
    ensures r.None? <==> forall u <- users :: u.email != email
  {
    if users == [] then None
    else if users[0].email == email then
      assert IsFirstWithEmail(users, email, 0);
      Some(users[0])
    else
      var r := FindByEmail(users[1..], email);
      assert forall u <- users[1..] :: u in users;
      if r.Some? then
        var i :| IsFirstWithEmail(users[1..], email, i) && users[1..][i] == r.value;
        assert IsFirstWithEmail(users, email, i + 1) by {
          forall j | 0 <= j < i + 1 ensures users[j].email != email {
            if j > 0 { assert users[j] == users[1..][j - 1]; }
          }
        }
        r
      else
        r
  }
}
