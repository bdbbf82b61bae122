/**
 * How the two apps meet: the user table the registration view grows is the
 * one the content rows point into.
 */
module Integrity {
  import opened AuthViews
  import opened Documents

  /** A sign-up, whatever its outcome, keeps every foreign key of the content tables intact. */
  lemma SigninKeepsDbValid(db: Db, hash: string -> string, req: SigninRequest)
    requires Valid(db)
    ensures Valid(db.(users := Singin(db.users, hash, req).state))
    ensures Singin(db.users, hash, req).state.Keys >= db.users.Keys
  {
  }
}
