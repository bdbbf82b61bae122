/**
 * The user table and CustomUserManager (BackEnd/AuthenticationSystem/models.py):
 * CustomUser rows indexed by their unique user_name column, and the two
 * creation routines `create_normal` and `create_admin`.
 */
module Users {
  import opened Wrappers
  import opened Http

  /** What `set_password` leaves in the row: a digest of the password, never the password. */
  datatype Credential = Hashed(digest: string)

  /** One CustomUser row; the groups and permissions relations are not modelled. */
  datatype User = User(
    firstName: string,
    lastName: string,
    userName: string,
    userType: string,
    credential: Credential,
    activeMode: bool)

  /** The user table, indexed by the unique user_name column. */
  type UserStore = map<string, User>

  /** Every row sits under its own user_name, so no two rows share one. */
  predicate UniqueNames(store: UserStore) {
    forall k :: k in store ==> store[k].userName == k
  }

  /** `store'` is `store` with exactly one more row, `u`, and every other row unchanged. */
  predicate AddsExactly(store: UserStore, store': UserStore, u: User) {
    && u.userName !in store
    && store'.Keys == store.Keys + {u.userName}
    && u.userName in store' && store'[u.userName] == u
    && forall k :: k in store ==> k in store' && store'[k] == store[k]
  }

  const MissingFieldsMessage := "all fields are required"
  const NormalDuplicateMessage := "user_name is aleady exist."
  const AdminDuplicateMessage := "user_name is already exist"

  /** What a manager routine returns (the row, or the ValueError's text) and the table after it. */
  datatype Creation = Creation(result: Result<User, string>, store: UserStore)

  /**
   * A fresh row as the model constructor and `set_password` build it;
   * active_mode takes its default.
   */
  function NewUser(hash: string -> string, firstName: string, lastName: string,
                   userName: string, userType: string, password: string): User
  {
    User(firstName, lastName, userName, userType, Hashed(hash(password)), true)
  }

  /** The body `create_normal` and `create_admin` share; they differ in default type and message. */
  function CreateUser(store: UserStore, hash: string -> string, firstName: Field, lastName: Field,
                      userName: Field, password: Field, userType: string, duplicateMessage: string): Creation
  {
    AllTruthyFour(lastName, firstName, userName, password);
    if !AllTruthy([lastName, firstName, userName, password]) then
      Creation(Failure(MissingFieldsMessage), store)
    else if userName.value in store then
      Creation(Failure(duplicateMessage), store)
    else
      var u := NewUser(hash, firstName.value, lastName.value, userName.value, userType, password.value);
      Creation(Success(u), store[userName.value := u])
  }

  /** `CustomUserManager.create_normal`; `userType` defaults to "normal" as the Python keyword does. */
  function CreateNormal(store: UserStore, hash: string -> string, lastName: Field, firstName: Field,
                        userName: Field, password: Field, userType: string := "normal"): (c: Creation)
    // a missing field is reported first, whatever the table holds
    ensures !Truthy(lastName) || !Truthy(firstName) || !Truthy(userName) || !Truthy(password) ==>
      c == Creation(Failure(MissingFieldsMessage), store)
    ensures (Truthy(lastName) && Truthy(firstName) && Truthy(userName) && Truthy(password)
             && userName.value in store) ==>
      c == Creation(Failure(NormalDuplicateMessage), store)
    ensures c.result.Success? <==>
      Truthy(lastName) && Truthy(firstName) && Truthy(userName) && Truthy(password) && userName.value !in store
    ensures c.result.Failure? ==> c.store == store
    ensures c.result.Success? ==>
      && AddsExactly(store, c.store, c.result.value)
      && c.result.value == User(firstName.value, lastName.value, userName.value, userType,
                                Hashed(hash(password.value)), true)
    ensures UniqueNames(store) ==> UniqueNames(c.store)
  {
    AllTruthyFour(lastName, firstName, userName, password);
    CreateUser(store, hash, firstName, lastName, userName, password, userType, NormalDuplicateMessage)
  }

  /** `CustomUserManager.create_admin`; `userType` defaults to "admin". */
  function CreateAdmin(store: UserStore, hash: string -> string, firstName: Field, lastName: Field,
                       userName: Field, password: Field, userType: string := "admin"): (c: Creation)
    ensures !Truthy(firstName) || !Truthy(lastName) || !Truthy(userName) || !Truthy(password) ==>
      c == Creation(Failure(MissingFieldsMessage), store)
    ensures (Truthy(firstName) && Truthy(lastName) && Truthy(userName) && Truthy(password)
             && userName.value in store) ==>
      c == Creation(Failure(AdminDuplicateMessage), store)
    ensures c.result.Success? <==>
      Truthy(firstName) && Truthy(lastName) && Truthy(userName) && Truthy(password) && userName.value !in store
    ensures c.result.Failure? ==> c.store == store
    ensures c.result.Success? ==>
      && AddsExactly(store, c.store, c.result.value)
      && c.result.value == User(firstName.value, lastName.value, userName.value, userType,
                                Hashed(hash(password.value)), true)
    ensures UniqueNames(store) ==> UniqueNames(c.store)
  {
    AllTruthyFour(lastName, firstName, userName, password);
    CreateUser(store, hash, firstName, lastName, userName, password, userType, AdminDuplicateMessage)
  }
}
