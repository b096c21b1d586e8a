/**
  The sign-in state shared by the pages (lib/auth-context.tsx): a fixed table of
  operators and their passwords, and the signed-in operator, if any.
*/
module Auth {
  import opened Optional
  import opened Text

  /** The operators who may sign in, with their passwords. */
  const USERS: map<string, string> := map["alexandra" := "1234", "nectarie" := "1234"]

  /** `username.toLowerCase().trim()`. */
  function NormalizeUsername(username: string): string
  {
    Trim(Lower(username))
  }

  /** The table has the normalized name, and its password is exactly `password`. */
  predicate Accepts(username: string, password: string)
  {
    var name := NormalizeUsername(username);
    name in USERS && USERS[name] == password
  }

  /** Only the two operators of the table can sign in, each with the table's password. */
  lemma OnlyTableAccounts(username: string, password: string)
    requires Accepts(username, password)
    ensures NormalizeUsername(username) == "alexandra" || NormalizeUsername(username) == "nectarie"
    ensures password == "1234"
  {
  }

  /** The name is compared in lower case and without surrounding white space:
      two names that normalize alike are accepted with the same passwords. */
  lemma NameCaseAndSpaceIgnored(a: string, b: string, password: string)
    requires NormalizeUsername(a) == NormalizeUsername(b)
    ensures Accepts(a, password) <==> Accepts(b, password)
  {
  }

  /** The provider's state: the signed-in operator's name, or `null`. */
  class AuthContext {
    var user: Option<string>

    /** Only an operator of the table is ever signed in. */
    predicate Valid()
      reads this
    {
      user.Some? ==> user.value in USERS
    }

    constructor()
      ensures user.None? && Valid()
    {
      user := None;
    }

    /** `login`: on success the normalized name becomes the user; on failure the
        state is as it was. */
    method Login(username: string, password: string) returns (ok: bool)
      requires Valid()
      modifies this
      ensures Valid()
      ensures ok <==> Accepts(username, password)
      ensures ok ==> user == Some(NormalizeUsername(username))
      ensures !ok ==> user == old(user)
    {
      var name := NormalizeUsername(username);
      if name in USERS && USERS[name] == password {
        user := Some(name);
        return true;
      }
      return false;
    }

    /** `logout`: nobody is signed in. */
    method Logout()
      modifies this
      ensures user.None? && Valid()
    {
      user := None;
    }
  }
}
