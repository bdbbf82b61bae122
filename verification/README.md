# Blog backend: registration, content creation and cascading deletes

A Dafny model of the decision logic of a small Django blogging backend:
user registration through `CustomUserManager` and the `singin` view, the
`create_blog` and `sub_comment` views, and the Blog/Comment tables with
their foreign keys to users and blogs.

Everything is pure: the database is an immutable `Db` value (a user table
keyed by the unique `user_name` column, and blog and comment tables keyed by
auto-increment ids), and each view is a function from the database and the
request to a reply and the database it leaves behind (`Http.Handled`).
Request fields are `Option<string>`; Python's `not x` / `all([...])` become
`Http.Truthy` / `Http.AllTruthy` (absent or empty string is falsy).

Modules, one per source file or concern:

- `Wrappers`: `Option`, `Result`.
- `Http`: fields, truthiness, status codes, replies; `Unhandled(fault)` stands
  for a view that returns no response or lets an exception escape, which the
  framework answers with a server error.
- `Users`: `CustomUser` rows and `create_normal` / `create_admin`.
- `AuthViews`: `singin` and the `FullCustomUserSerializer` projection.
- `Documents`: `Blog` / `Comment` rows, referential integrity (`Valid`), the
  ORM create defaults, and cascading deletes of a blog and of a user.
- `DocumentViews`: JWT authentication as an input, `create_blog`,
  `sub_comment`, and the ORM behaviour that decides their outcomes.
- `Integrity`: registration keeps the content tables' foreign keys intact.

Inputs that stand for code outside the model:

- Password hashing is a function parameter `hash: string -> string`; the row
  stores `Hashed(hash(password))`, never the password.
- JWT verification is an input `Jwt` (`NoToken`, `InvalidToken`,
  `ValidToken(subject)`); a valid token naming a user who is not in the table
  fails, as the token library's user lookup does.

Behaviour as written that the model keeps:

- `create_blog` never passes the content to `Blog.objects.create`
  (Document/views.py:53-55), so the file column (`contect`, Document/models.py:8)
  stays empty. It passes `tags=None` when the request has no tags, so the
  column is null rather than the `"none"` default, which applies only when
  the keyword is left out.
- `sub_comment` passes the query set from `Blog.objects.filter` as the
  comment's blog and passes no owner (Document/views.py:79,86). Django refuses
  a query set for a foreign key with a ValueError while building the row; the
  view catches it and answers 400. No comment is ever stored, and the 404
  branch cannot be taken because `filter` never raises `DoesNotExist`. A
  `blog_id` that is not an integer makes `filter` raise a ValueError the view
  does not catch.
- `singin` with a `user_type` other than `"normal"` falls off the end of the
  view and returns nothing (AuthenticationSystem/views.py:37-53); no user is
  created.
- Inside `singin`, the `except ValueError` branch cannot be taken: the view's
  own checks exclude both errors `create_normal` raises.
- `Blog.description` is declared `blank=True, null=True` (Document/models.py:7),
  but the view rejects a request without one (Document/views.py:43-46); the
  model follows the view.

Behaviour as written that the model does not keep: the foreign keys are
declared with `on_delete=models.CASCADE()`, a call rather than the handler
itself (Document/models.py:16,29,36), and as written that call fails when the
module is loaded. The model follows the evident intent instead: deleting a
blog deletes its comments, and deleting a user deletes that user's blogs and
comments.

## Model

| member | source | states |
|---|---|---|
| Http.AllTruthyFour | BackEnd/AuthenticationSystem/models.py:20 | `all([...])` over four fields holds exactly when each of them is present and non-empty (also the check at models.py:45) |
| Http.AllTruthyFive | AuthenticationSystem/views.py:25 | `all([...])` over five fields holds exactly when each of them is present and non-empty |
| Users.CreateNormal | BackEnd/AuthenticationSystem/models.py:12-34 | A missing or empty last name, first name, user name or password fails with "all fields are required" whatever the table holds; otherwise an existing user name fails with the duplicate message; every failure leaves the table unchanged; success adds exactly one row under the user name with the given names, type defaulting to "normal", the hashed password and active_mode true, all other rows unchanged, and keeps user names unique |
| Users.CreateAdmin | BackEnd/AuthenticationSystem/models.py:36-59 | The same two checks in the same order with its own duplicate message; success adds exactly one row, type defaulting to "admin", and keeps user names unique |
| AuthViews.Singin | AuthenticationSystem/views.py:16-53 | Any of the five fields missing gives 400 "all fields are required"; otherwise a taken name gives 403; otherwise a non-"normal" type returns no response; 201 happens exactly for complete, fresh, "normal" requests and carries the five-field view (no credential) of the one row added; the table changes exactly on 201 and user names stay unique |
| AuthViews.SinginManagerNeverRaises | AuthenticationSystem/views.py:31-53 | Every 403 from the view carries the view's own duplicate message, never an error raised by create_normal |
| AuthViews.SinginAllKeepsNamesUnique | AuthenticationSystem/views.py:31-48 | Over any sequence of sign-ups, user names stay unique, no existing user is lost or altered, and the table grows by exactly the number of 201 replies |
| AuthViews.DistinctSignupsBothSucceed | AuthenticationSystem/views.py:25-48 | Two complete "normal" sign-ups with distinct fresh names both get 201 and both names end up in the table |
| Documents.NewBlog | Document/models.py:5-20 | A created blog starts with likes and dislikes 0; tags are "none" when the keyword is left out and exactly what was passed otherwise; the file column is empty when left out |
| Documents.NewComment | Document/models.py:23-39 | A created comment starts with like and dislike 0 and records its content, blog and owner |
| Documents.InsertBlog | Document/views.py:53-55 | The save behind `Blog.objects.create` puts the row under an id no existing blog has, changes no other table, and keeps integrity when the owner exists |
| Documents.InsertComment | Document/views.py:86 | The save behind `Comment.objects.create` puts the row under an id no existing comment has, changes no other table, and keeps integrity when its blog and owner exist |
| Documents.DeleteBlog | Document/models.py:27-33 | Deleting a blog removes it and exactly the comments whose blog it was; other blogs and comments are untouched, users unchanged, and integrity is preserved |
| Documents.DeleteUser | Document/models.py:14-39 | Deleting a user removes the user row, exactly the blogs they own, and exactly the comments they wrote or that sit on their blogs; survivors are untouched and integrity is preserved |
| Documents.DeleteBlogsRemovesExactly | Document/models.py:27-33 | Deleting a sequence of blogs one by one removes exactly those blogs and exactly the comments on them |
| Documents.DeleteUserIsBlogCascade | Document/models.py:14-39 | Deleting a user equals deleting each of their blogs with its own cascade, then their remaining comments and their row |
| DocumentViews.Authenticate | Document/views.py:20-32 | Authentication yields a user exactly when the token is valid and names an existing user; no token is the "returns None" case |
| DocumentViews.CreateBlog | Document/views.py:17-60 | Failed or missing authentication gives 400 "your JWT isn't fine" before any field is looked at; then title, description and content are required in that order, each with its own 400 message; 201 happens exactly when all pass; every rejection leaves the database unchanged; success adds exactly one blog under a fresh id, owned by the token's user, with the given title, description and tags, zero counters and an empty file column, and integrity is preserved |
| DocumentViews.CreateBlogTagsOptional | Document/views.py:36-55 | Whether a request is accepted does not depend on its tags; without tags the stored tags are null |
| DocumentViews.CreateBlogIntended | Document/views.py:52-55 | Same acceptance and same rejections as the view as written; on success the stored blog holds the request's title, description and content, and "none" tags when none were given, owned by the token's user, and integrity is preserved |
| DocumentViews.CreateBlogDropsContentExample | Document/views.py:52-55 | A concrete request with content "c" and no tags is stored with empty content and null tags as written, and with "c" and "none" as intended |
| DocumentViews.ParseDecimalText | Document/views.py:79 | Reading back the decimal text of an id gives that id |
| DocumentViews.FilterById | Document/views.py:78-84 | The lookup yields a query set exactly when the id text converts to an integer, holding exactly the blogs with that id; it never reports a missing blog |
| DocumentViews.CreateComment | Document/views.py:85-92 | Passing a query set as the blog raises ValueError; the row is saved exactly when a blog row and an owner are given and both exist, with zero counters under a fresh id, and integrity is preserved |
| DocumentViews.SubComment | Document/views.py:63-92 | Missing content gives 400 "content is required" whatever blog_id is; then missing blog_id gives 400 "blog_id is required"; a non-integer blog_id escapes as a ValueError; every other request gets 400 with the foreign-key message; the database never changes and neither 201 nor 404 is ever returned |
| DocumentViews.SubCommentIntended | Document/views.py:78-86 | Same field checks; a blog id with no blog gives 404 "there is no blog with <id> id"; 201 adds exactly one comment on that blog owned by the requesting user with zero counters; any other outcome leaves the database unchanged; integrity is preserved |
| DocumentViews.SubCommentIntendedCreates | Document/views.py:78-89 | As intended, a registered user commenting on an existing blog named by its decimal id always gets 201 and the comment is stored |
| DocumentViews.SubCommentRejectsExistingBlog | Document/views.py:78-92 | As written, the same request on an existing blog gets 400 and nothing is stored |
| Integrity.SigninKeepsDbValid | AuthenticationSystem/views.py:37-48 | A sign-up of any outcome keeps every foreign key of the blog and comment tables intact and loses no user |

## Findings

| source | as written | input that shows it | evidently intended | confidence | as-written member | corrected member |
|---|---|---|---|---|---|---|
| Document/views.py:52-55 | The blog is created without its content | title "Hi", description "d", content "c" | The content is stored with the blog | high; not executed | DocumentViews.CreateBlogDropsContentExample | DocumentViews.CreateBlogIntended |
| Document/views.py:36,53-54 | `tags=None` is passed explicitly, overriding the "none" default | a request with no tags | Absent tags take the "none" default | medium; not executed | DocumentViews.CreateBlogDropsContentExample | DocumentViews.CreateBlogIntended |
| Document/views.py:78-86 | A query set is passed as the comment's blog and no owner is passed, so creation always fails with 400 and the 404 branch is dead | content "c", blog_id of an existing blog | Look the blog up (404 if absent) and create the comment owned by the requesting user | high; not executed | DocumentViews.SubCommentRejectsExistingBlog | DocumentViews.SubCommentIntended |

## Left out

- Token issuance and verification, and the login views `manual_login` and `login`: token handling belongs to a library, and the login views are not defined in the source files modelled here.
- The edit, remove, like, dislike, activate and deactivate views named in Document/urls.py: they are not defined in the source files modelled here, so there is no behaviour to model.
- The `IsAuthenticated` permission gate in front of the views: it depends on framework settings that are not part of this model; the views are modelled from the point where a request reaches their body. `SubCommentIntended` takes the requesting user as a parameter for this reason.
- Persistence, transactions and concurrent requests (including lost updates on counters): every view is one sequential step on an immutable database.
- Password hashing internals and salting: `hash` is an uninterpreted parameter.
- `groups` and `user_permissions` and the rest of Django's user plumbing (`last_login`, `is_active`).
- `max_length` on the user columns, and CharFields declared without one: length limits are enforced by the database or form layer, not by these routines.
- `user_type` passed explicitly as None to a manager routine: no caller in the modelled code does so.
- Request fields that are not text (JSON numbers, lists): fields are modelled as optional strings.
- DocumentViews.FilterById: accepts only an optional sign followed by ASCII digits, whereas Python's integer conversion also allows surrounding whitespace, underscores between digits and non-ASCII digits.
- DocumentViews.CreateComment: the ValueError message abbreviates the query set's printed form to `<QuerySet>`.
- The framework's server-error response for `Unhandled` replies: a reply records only that the view failed and why, not the response the framework then sends.
- The auto-increment `id` primary key of users: the model identifies a user by `user_name`, whereas the foreign keys, the token's `user_id` claim and the serialized `owner`/`blog` fields (Document/serializers.py:5-20) use that `id`. So a token that outlives its user's deletion is not told apart from a token for a new user registered later under the same name.
