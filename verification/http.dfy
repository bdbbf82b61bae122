/**
 * The slice of the request/response machinery the handlers rely on:
 * request fields as `request.data.get(...)` yields them, Python truthiness
 * of those fields, status codes, and replies.
 */
module Http {
  import opened Wrappers

  /** A request body field: absent, or the submitted text. */
  type Field = Option<string>

  /** Python truthiness of a field (`not x` is its negation): present and not empty. */
  predicate Truthy(f: Field) {
    f.Some? && f.value != ""
  }

  /** Python's `all([...])` over a list of fields. */
  predicate AllTruthy(fs: seq<Field>) {
    forall i :: 0 <= i < |fs| ==> Truthy(fs[i])
  }

  /** `all([a, b, c, d])` holds exactly when each of the four fields is truthy. */
  lemma AllTruthyFour(a: Field, b: Field, c: Field, d: Field)
    ensures AllTruthy([a, b, c, d]) <==> Truthy(a) && Truthy(b) && Truthy(c) && Truthy(d)
  {
    var fs := [a, b, c, d];
    assert fs[0] == a && fs[1] == b && fs[2] == c && fs[3] == d;
  }

  /** `all([a, b, c, d, e])` holds exactly when each of the five fields is truthy. */
  lemma AllTruthyFive(a: Field, b: Field, c: Field, d: Field, e: Field)
    ensures AllTruthy([a, b, c, d, e]) <==> Truthy(a) && Truthy(b) && Truthy(c) && Truthy(d) && Truthy(e)
  {
    var fs := [a, b, c, d, e];
    assert fs[0] == a && fs[1] == b && fs[2] == c && fs[3] == d && fs[4] == e;
  }

  const Created: int := 201
  const BadRequest: int := 400
  const Forbidden: int := 403
  const NotFound: int := 404

  /** Why a view produced no response of its own; the framework turns each into a server error. */
  datatype Fault =
    | NoResponseReturned       // the view function fell off its end and returned None
    | UncaughtValueError       // a ValueError the view does not catch
    | UncaughtIntegrityError   // the database refused a row and nothing catches it

  /** What a view hands back to the framework. */
  datatype Reply<+B> = Respond(status: int, body: B) | Unhandled(fault: Fault)
  {
    predicate HasStatus(code: int) {
      Respond? && status == code
    }
  }

  /** A view's reply together with the store it leaves behind. */
  datatype Handled<+B, +S> = Handled(reply: Reply<B>, state: S)
}
