/**
 * The parts of a stored user that the account-action tokens read and change,
 * and the database session that persists them.
 */
module Accounts {

  /** A snapshot of a user's fields. */
  datatype Account = Account(id: int, username: string, email: string, password: string, confirmed: bool)

  /** The ORM user object: the token handler changes its fields in place. */
  class User {
    const id: int
    var username: string
    var email: string
    var password: string
    var confirmed: bool

    constructor (id: int, username: string, email: string, password: string, confirmed: bool)
      ensures State() == Account(id, username, email, password, confirmed)
    {
      this.id := id;
      this.username := username;
      this.email := email;
      this.password := password;
      this.confirmed := confirmed;
    }

    /** The current values of all fields. */
    function State(): Account
      reads this
    {
      Account(id, username, email, password, confirmed)
    }

    /** `set_password`: stores the new password (its hashing is not modelled). */
    method SetPassword(newPassword: string)
      modifies this
      ensures State() == old(State()).(password := newPassword)
    {
      password := newPassword;
    }
  }

  /** The database session: the committed rows, keyed by user id, and how often it committed. */
  class Session {
    var rows: map<int, Account>
    var commits: nat

    constructor (rows: map<int, Account>)
      ensures this.rows == rows && commits == 0
    {
      this.rows := rows;
      commits := 0;
    }

    /** The emails of every stored user: what `User.query.filter_by(email=...)` can find. */
    function Emails(): (emails: set<string>)
      reads this
      ensures forall id :: id in rows ==> rows[id].email in emails
      ensures forall e :: e in emails ==> exists id :: id in rows && rows[id].email == e
    {
      set id | id in rows :: rows[id].email
    }

    /** `db.session.commit()`: writes the user object's current state to its row. */
    method Commit(u: User)
      modifies this
      ensures rows == old(rows)[u.id := u.State()]
      ensures commits == old(commits) + 1
    {
      rows := rows[u.id := u.State()];
      commits := commits + 1;
    }
  }
}
