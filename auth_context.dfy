/** The demo login: one fixed pair of credentials, and the signed-in user
    mirrored into the browser's storage under the key "user". */
module AuthContext {
  import opened Common

  const AdminEmail: string := "admin@talentflow.com"
  const AdminPassword: string := "123456789"
  const InvalidCredentials: string := "Invalid email or password"

  /** The stored user object `{ email }`. */
  datatype User = User(email: string)

  /** The object `login` resolves to. */
  datatype LoginReply = LoginReply(success: bool, message: Option<string>)

  /** The reply for a pair of credentials: success exactly for the fixed
      pair, otherwise the error message. */
  function CheckCredentials(email: string, password: string): (r: LoginReply)
    ensures r.success <==> email == AdminEmail && password == AdminPassword
    ensures r.success ==> r.message.None?
    ensures !r.success ==> r.message == Some(InvalidCredentials)
  {
    if email == AdminEmail && password == AdminPassword then LoginReply(true, None)
    else LoginReply(false, Some(InvalidCredentials))
  }

  /** The state cell `user` and the storage slot "user" (the JSON text is
      abstracted to the object it encodes; an absent or empty slot is
      `None`). */
  class Auth {
    var user: Option<User>
    var stored: Option<User>

    /** Storage and the state cell agree. */
    predicate Mirrored()
      reads this
    {
      user == stored
    }

    /** The initial user is the one stored, or nobody. */
    constructor (saved: Option<User>)
      ensures stored == saved && user == saved
      ensures Mirrored()
    {
      stored := saved;
      user := saved;
    }

    /** The mount effect: a stored user replaces the state cell. */
    method RestoreFromStorage()
      modifies this
      ensures stored == old(stored)
      ensures user == if stored.Some? then stored else old(user)
      ensures old(Mirrored()) ==> Mirrored()
    {
      if stored.Some? {
        user := stored;
      }
    }

    /** `login`: the fixed pair signs in as that e-mail and stores it; any
        other pair changes nothing. */
    method Login(email: string, password: string) returns (r: LoginReply)
      modifies this
      ensures r == CheckCredentials(email, password)
      ensures r.success <==> email == AdminEmail && password == AdminPassword
      ensures !r.success ==> r.message == Some(InvalidCredentials)
      ensures r.success ==> user == Some(User(email)) && stored == Some(User(email))
      ensures !r.success ==> user == old(user) && stored == old(stored)
      ensures old(Mirrored()) ==> Mirrored()
    {
      if email == AdminEmail && password == AdminPassword {
        var loggedUser := User(email);
        user := Some(loggedUser);
        stored := Some(loggedUser);
        return LoginReply(true, None);
      }
      r := LoginReply(false, Some(InvalidCredentials));
    }

    /** `logout`: nobody is signed in and the slot is removed. */
    method Logout()
      modifies this
      ensures user == None && stored == None
      ensures Mirrored()
    {
      user := None;
      stored := None;
    }
  }
}
