/**
 * models/user.py: a `User` may only be built with an email that no earlier
 * `User` has taken since the class-level set `_existing_emails` was last
 * cleared. Dafny has no class-level state, so the set lives in an
 * `EmailRegistry` object and the checked construction is its `NewUser` method.
 */
module UserModel {
  datatype Result<T> = Success(value: T) | Failure(error: string)

  /** A user: the email is fixed at construction, the password is an ordinary attribute. */
  class User {
    const email: string
    var password: string

    constructor (email: string, password: string)
      ensures this.email == email && this.password == password
    {
      this.email := email;
      this.password := password;
    }
  }

  /** `User._existing_emails`, with the users built since the last clear as ghost state. */
  class EmailRegistry {
    var emails: set<string>
    ghost var members: seq<User>

    /** The set holds exactly the emails of the users built since the last clear, and no two of them share one. */
    ghost predicate Valid()
      reads this
    {
      && (forall i :: 0 <= i < |members| ==> members[i].email in emails)
      && (forall e :: e in emails ==> exists i :: 0 <= i < |members| && members[i].email == e)
      && (forall i, j :: 0 <= i < j < |members| ==> members[i].email != members[j].email)
    }

    /** The set starts empty. */
    constructor ()
      ensures Valid() && emails == {} && members == []
    {
      emails := {};
      members := [];
    }

    /**
     * `User(email, password)`: fails with "Email already exists" and changes
     * nothing if the email is taken; otherwise adds the email and returns a
     * fresh user carrying the two arguments.
     */
    method NewUser(email: string, password: string) returns (r: Result<User>)
      requires Valid()
      modifies this
      ensures Valid()
      ensures r.Failure? <==> email in old(emails)
      ensures r.Failure? ==> r.error == "Email already exists" && emails == old(emails) && members == old(members)
      ensures r.Success? ==>
        && fresh(r.value) && r.value.email == email && r.value.password == password
        && emails == old(emails) + {email} && members == old(members) + [r.value]
    {
      if email in emails {
        return Failure("Email already exists");
      }
      emails := emails + {email};
      var user := new User(email, password);
      members := members + [user];
      forall e | e in emails ensures exists i :: 0 <= i < |members| && members[i].email == e {
        if e == email {
          assert members[|members| - 1].email == e;
        } else {
          var i :| 0 <= i < |old(members)| && old(members)[i].email == e;
          assert members[i].email == e;
        }
      }
      r := Success(user);
    }

    /** `clear_existing_emails`: empties the set, so every email is accepted again. */
    method ClearExistingEmails()
      requires Valid()
      modifies this
      ensures Valid() && emails == {} && members == []
    {
      emails := {};
      members := [];
    }
  }
}
