/**
 * The mock session of hooks/useAuth.tsx: the user read from storage on the first render, and
 * `login` / `logout`, which write or remove the stored user and set the current one.
 */
module Auth {
  import opened Types

  const UserStorageKey := "yt-summarizer-user"
  const MockUserId := "user-123"

  /**
   * The storage slot under `UserStorageKey`: nothing, an empty string, the serialised user, or
   * a string that is not JSON.
   */
  datatype UserSlot = Missing | Blank | Stored(user: User) | Corrupt

  /** `email.split('@')[0]`: the text before the first '@', or the whole email without one. */
  function NameOf(email: string): (name: string)
    ensures |name| <= |email| && name == email[..|name|]
    ensures forall k :: 0 <= k < |name| ==> name[k] != '@'
    ensures |name| == |email| || email[|name|] == '@'
  {
    if email == [] || email[0] == '@' then [] else [email[0]] + NameOf(email[1..])
  }

  /** The name is determined by what precedes the first '@': whatever follows it does not matter. */
  lemma {:induction false} NameIgnoresDomain(local: string, domain: string)
    requires forall k :: 0 <= k < |local| ==> local[k] != '@'
    ensures NameOf(local + "@" + domain) == local
    ensures NameOf(local) == local
  {
    if local != [] {
      assert (local + "@" + domain)[1..] == local[1..] + "@" + domain;
      NameIgnoresDomain(local[1..], domain);
    }
  }

  /** The user `login(email)` creates. */
  function MockUser(email: string): (u: User)
    ensures u.id == MockUserId && u.email == email && u.name == NameOf(email)
  {
    User(MockUserId, email, NameOf(email))
  }

  /** The first render's user: the stored one if the slot holds a non-empty string, else null. */
  function InitialUser(slot: UserSlot): Option<User>
    requires !slot.Corrupt?
  {
    match slot
    case Stored(u) => Some(u)
    case _ => None
  }

  /** The hook's state together with the storage slot it writes. */
  datatype Session = Session(user: Option<User>, slot: UserSlot)

  function AfterLogin(s: Session, email: string): Session {
    Session(Some(MockUser(email)), Stored(MockUser(email)))
  }

  function AfterLogout(s: Session): Session {
    Session(None, Missing)
  }

  /**
   * Logging in makes the mock user current and stores it, so a reload reads it back; logging in
   * again with the same email changes nothing; logging out leaves no user, now or after a reload.
   */
  lemma {:induction false} SessionLaws(s: Session, email: string)
    ensures AfterLogin(s, email).user == Some(MockUser(email))
    ensures InitialUser(AfterLogin(s, email).slot) == AfterLogin(s, email).user
    ensures AfterLogin(AfterLogin(s, email), email) == AfterLogin(s, email)
    ensures AfterLogout(s).user == None && InitialUser(AfterLogout(s).slot) == None
    ensures AfterLogout(AfterLogout(s)) == AfterLogout(s)
    ensures AfterLogin(AfterLogout(s), email) == AfterLogin(s, email)
  {
  }

  /** `AuthProvider`: the current user and the storage slot it reads and writes. */
  class AuthProvider {
    var user: Option<User>
    var slot: UserSlot

    function State(): Session
      reads this
    {
      Session(user, slot)
    }

    /** The first render: the stored user if there is one. */
    constructor (stored: UserSlot)
      requires !stored.Corrupt?
      ensures slot == stored && user == InitialUser(stored)
    {
      slot := stored;
      if stored.Stored? {
        user := Some(stored.user);
      } else {
        user := None;
      }
    }

    /** `login(email)`: store the mock user, then make it current. */
    method Login(email: string)
      modifies this
      ensures State() == AfterLogin(old(State()), email)
    {
      var mockUser := User(MockUserId, email, NameOf(email));
      slot := Stored(mockUser);
      user := Some(mockUser);
    }

    /** `logout()`: remove the stored user, then clear the current one. */
    method Logout()
      modifies this
      ensures State() == AfterLogout(old(State()))
    {
      slot := Missing;
      user := None;
    }
  }
}
