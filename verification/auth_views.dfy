/**
 * The registration view `singin` (AuthenticationSystem/views.py) and the
 * user projection its success response carries
 * (AuthenticationSystem/serializers.py, FullCustomUserSerializer).
 */
module AuthViews {
  import opened Wrappers
  import opened Http
  import opened Users

  /** The public projection of a user: five fields, no credential. */
  datatype UserView = UserView(
    userName: string,
    userType: string,
    firstName: string,
    lastName: string,
    activeMode: bool)

  function FullView(u: User): UserView {
    UserView(u.userName, u.userType, u.firstName, u.lastName, u.activeMode)
  }

  /** Response bodies of the authentication views: `{"error": ...}` or `{"user": ...}`. */
  datatype AuthBody = Error(error: string) | UserData(user: UserView)

  /** The five body fields `singin` reads. */
  datatype SigninRequest = SigninRequest(
    firstName: Field,
    lastName: Field,
    userName: Field,
    userType: Field,
    password: Field)

  /** Every one of the five fields is present and non-empty. */
  predicate AllFieldsGiven(req: SigninRequest) {
    Truthy(req.firstName) && Truthy(req.lastName) && Truthy(req.userName)
    && Truthy(req.userType) && Truthy(req.password)
  }

  function TakenMessage(userName: string): string {
    "user_name: " + userName + " is already exitst"
  }

  /**
   * `singin`: the missing-field check, then the duplicate check, then the
   * type dispatch. Only "normal" reaches `create_normal`; any other type
   * makes the view return None.
   */
  function Singin(store: UserStore, hash: string -> string, req: SigninRequest): (h: Handled<AuthBody, UserStore>)
    ensures !AllFieldsGiven(req) ==>
      h == Handled(Respond(BadRequest, Error(MissingFieldsMessage)), store)
    ensures AllFieldsGiven(req) && req.userName.value in store ==>
      h == Handled(Respond(Forbidden, Error(TakenMessage(req.userName.value))), store)
    ensures (AllFieldsGiven(req) && req.userName.value !in store && req.userType.value != "normal") ==>
      h == Handled(Unhandled(NoResponseReturned), store)
    ensures h.reply.HasStatus(Created) <==>
      AllFieldsGiven(req) && req.userName.value !in store && req.userType.value == "normal"
    ensures h.reply.HasStatus(Created) ==>
      var u := User(req.firstName.value, req.lastName.value, req.userName.value, "normal",
                    Hashed(hash(req.password.value)), true);
      && h.reply.body == UserData(UserView(u.userName, "normal", u.firstName, u.lastName, true))
      && AddsExactly(store, h.state, u)
    // the table changes exactly when a user is created
    ensures h.state != store <==> h.reply.HasStatus(Created)
    ensures UniqueNames(store) ==> UniqueNames(h.state)
  {
    AllTruthyFive(req.firstName, req.lastName, req.userName, req.userType, req.password);
    if !AllTruthy([req.firstName, req.lastName, req.userName, req.userType, req.password]) then
      Handled(Respond(BadRequest, Error(MissingFieldsMessage)), store)
    else if req.userName.value in store then
      Handled(Respond(Forbidden, Error(TakenMessage(req.userName.value))), store)
    else if req.userType.value == "normal" then
      var c := CreateNormal(store, hash, firstName := req.firstName, lastName := req.lastName,
                            userName := req.userName, password := req.password);
      match c.result
      case Success(u) => Handled(Respond(Created, UserData(FullView(u))), c.store)
      case Failure(e) => Handled(Respond(Forbidden, Error(e)), c.store)
    else
      Handled(Unhandled(NoResponseReturned), store)
  }

  /**
   * The `except ValueError` branch of `singin` is never taken: the view's own
   * checks already rule out both errors `create_normal` can raise, so a 403
   * always carries the view's own duplicate message.
   */
  lemma SinginManagerNeverRaises(store: UserStore, hash: string -> string, req: SigninRequest)
    ensures var h := Singin(store, hash, req);
      h.reply.HasStatus(Forbidden) ==>
        && h.reply.body == Error(TakenMessage(req.userName.value))
        && h.reply.body != Error(NormalDuplicateMessage)
        && h.reply.body != Error(MissingFieldsMessage)
  {
  }

  /** The user table after a sequence of sign-up requests, handled one after another. */
  function SinginAll(store: UserStore, hash: string -> string, reqs: seq<SigninRequest>): UserStore
    decreases |reqs|
  {
    if |reqs| == 0 then store else SinginAll(Singin(store, hash, reqs[0]).state, hash, reqs[1..])
  }

  /** Number of requests in `reqs` that were answered 201 when handled in order from `store`. */
  function CreatedCount(store: UserStore, hash: string -> string, reqs: seq<SigninRequest>): nat
    decreases |reqs|
  {
    if |reqs| == 0 then 0
    else
      var h := Singin(store, hash, reqs[0]);
      (if h.reply.HasStatus(Created) then 1 else 0) + CreatedCount(h.state, hash, reqs[1..])
  }

  /**
   * Over any sequence of sign-ups, user names stay unique, no user is lost
   * or altered, and the table grows by exactly the number of 201 replies.
   */
  lemma {:induction false} SinginAllKeepsNamesUnique(store: UserStore, hash: string -> string, reqs: seq<SigninRequest>)
    requires UniqueNames(store)
    ensures var s := SinginAll(store, hash, reqs);
      && UniqueNames(s)
      && (forall k :: k in store ==> k in s && s[k] == store[k])
      && |s| == |store| + CreatedCount(store, hash, reqs)
    decreases |reqs|
  {
    if |reqs| > 0 {
      var h := Singin(store, hash, reqs[0]);
      if h.reply.HasStatus(Created) {
        var u := User(reqs[0].firstName.value, reqs[0].lastName.value, reqs[0].userName.value, "normal",
                      Hashed(hash(reqs[0].password.value)), true);
        assert h.state.Keys == store.Keys + {u.userName};
        assert |h.state.Keys| == |store.Keys| + 1;
      }
      SinginAllKeepsNamesUnique(h.state, hash, reqs[1..]);
    }
  }

  /** Two well-formed "normal" sign-ups with distinct fresh names both succeed. */
  lemma DistinctSignupsBothSucceed(store: UserStore, hash: string -> string, r1: SigninRequest, r2: SigninRequest)
    requires AllFieldsGiven(r1) && AllFieldsGiven(r2)
    requires r1.userType.value == "normal" && r2.userType.value == "normal"
    requires r1.userName.value !in store && r2.userName.value !in store
    requires r1.userName.value != r2.userName.value
    ensures var h1 := Singin(store, hash, r1);
      && h1.reply.HasStatus(Created)
      && Singin(h1.state, hash, r2).reply.HasStatus(Created)
      && r1.userName.value in Singin(h1.state, hash, r2).state
      && r2.userName.value in Singin(h1.state, hash, r2).state
  {
  }
}
