/** Rules of the user table: unique contact details and listings by role. */
module Accounts {
  import opened Entities

  /** No two users share an e-mail address or a mobile number. */
  ghost predicate ContactsUnique(users: map<Id, User>) {
    forall a, b :: a in users && b in users && a != b ==>
      users[a].email != users[b].email && users[a].mobile != users[b].mobile
  }

  predicate EmailTaken(users: map<Id, User>, email: string) {
    exists id :: id in users && users[id].email == email
  }

  predicate MobileTaken(users: map<Id, User>, mobile: string) {
    exists id :: id in users && users[id].mobile == mobile
  }

  /** Adding a user whose e-mail and mobile are both free keeps contact details unique. */
  lemma AddFreshKeepsUnique(users: map<Id, User>, id: Id, u: User)
    requires ContactsUnique(users) && id !in users
    requires !EmailTaken(users, u.email) && !MobileTaken(users, u.mobile)
    ensures ContactsUnique(users[id := u])
  {
  }

  /** Adding a user whose e-mail is already taken would break uniqueness: this is why
      registration checks it. */
  lemma AddTakenBreaksUnique(users: map<Id, User>, id: Id, u: User)
    requires id !in users && EmailTaken(users, u.email)
    ensures !ContactsUnique(users[id := u])
  {
    var other :| other in users && users[other].email == u.email;
    assert users[id := u][other].email == users[id := u][id].email;
  }

  /** The ids of the users whose role is exactly `role`. */
  function WithRole(users: map<Id, User>, role: string): (r: set<Id>)
    ensures r <= users.Keys
  {
    set id | id in users && users[id].role == role
  }

  /** Changing a user's role moves that user into the listing of the new role and out of
      every other listing; no other user moves. */
  lemma RoleChangeMovesUser(users: map<Id, User>, id: Id, role: string, r: string)
    requires id in users
    ensures WithRole(users[id := users[id].(role := role)], r) ==
      (if r == role then WithRole(users, r) + {id} else WithRole(users, r) - {id})
  {
  }

  /** Registering a user adds exactly that user to the listing of their role. */
  lemma AddJoinsOwnListing(users: map<Id, User>, id: Id, u: User, r: string)
    requires id !in users
    ensures WithRole(users[id := u], r) == (if r == u.role then WithRole(users, r) + {id} else WithRole(users, r))
  {
  }
}
