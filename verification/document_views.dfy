/**
 * The content views `create_blog` and `sub_comment` (Document/views.py)
 * as pure functions of the database and the request, together with the
 * parts of the ORM whose behaviour decides their outcome: JWT
 * authentication, the `id` lookup, and the foreign-key checks of
 * `Comment.objects.create`.
 */
module DocumentViews {
  import opened Wrappers
  import opened Http
  import opened Users
  import opened Documents

  /** What the Authorization header carries, as the signed-token scheme judges it. */
  datatype Jwt = NoToken | InvalidToken | ValidToken(subject: string)

  /**
   * The three outcomes of `JWTAuthentication().authenticate(request)`:
   * None (no token), AuthenticationFailed raised, or the user.
   */
  datatype Authentication = NotAttempted | AuthenticationFailed | Authenticated(user: string)

  /** A verified token still fails when the user it names is not in the table. */
  function Authenticate(users: UserStore, jwt: Jwt): (a: Authentication)
    ensures a.Authenticated? <==> jwt.ValidToken? && jwt.subject in users
    ensures a.Authenticated? ==> a.user == jwt.subject
    ensures a == NotAttempted <==> jwt == NoToken
  {
    match jwt
    case NoToken => NotAttempted
    case InvalidToken => AuthenticationFailed
    case ValidToken(subject) => if subject in users then Authenticated(subject) else AuthenticationFailed
  }

  /** Response bodies of the content views: `{"msg": ...}`, `{"blog": ...}` or `{"comment": ...}`. */
  datatype DocBody = Msg(msg: string) | BlogData(id: nat, blog: Blog) | CommentData(id: nat, comment: Comment)

  const JwtMessage := "your JWT isn't fine"
  const TitleRequired := "title is required"
  const DescriptionRequired := "description is required"
  const ContentRequired := "content is required"
  const BlogIdRequired := "blog_id is required"

  /** The four body fields `create_blog` reads. */
  datatype CreateBlogRequest = CreateBlogRequest(title: Field, description: Field, tags: Field, content: Field)

  /** `db'` is `db` with exactly one more blog, `b`, under the fresh id `id`. */
  predicate AddsBlog(db: Db, db': Db, id: nat, b: Blog) {
    && id !in db.blogs
    && db'.blogs == db.blogs[id := b]
    && db'.users == db.users
    && db'.comments == db.comments
  }

  /**
   * `create_blog` as written: authentication first, then title,
   * description and content in that order; the blog row is created without
   * the content, and with tags exactly as the request gave them.
   */
  function CreateBlog(db: Db, jwt: Jwt, req: CreateBlogRequest): (h: Handled<DocBody, Db>)
    ensures !Authenticate(db.users, jwt).Authenticated? ==>
      h == Handled(Respond(BadRequest, Msg(JwtMessage)), db)
    ensures Authenticate(db.users, jwt).Authenticated? && !Truthy(req.title) ==>
      h == Handled(Respond(BadRequest, Msg(TitleRequired)), db)
    ensures (Authenticate(db.users, jwt).Authenticated? && Truthy(req.title) && !Truthy(req.description)) ==>
      h == Handled(Respond(BadRequest, Msg(DescriptionRequired)), db)
    ensures (Authenticate(db.users, jwt).Authenticated? && Truthy(req.title) && Truthy(req.description)
             && !Truthy(req.content)) ==>
      h == Handled(Respond(BadRequest, Msg(ContentRequired)), db)
    ensures h.reply.HasStatus(Created) <==>
      Authenticate(db.users, jwt).Authenticated? && Truthy(req.title) && Truthy(req.description) && Truthy(req.content)
    ensures !h.reply.HasStatus(Created) ==> h.state == db
    // on success exactly one blog is added, the one the reply shows, owned by the token's user
    ensures h.reply.HasStatus(Created) ==> h.reply.body.BlogData?
    ensures h.reply.HasStatus(Created) && Valid(db) ==>
      AddsBlog(db, h.state, h.reply.body.id, h.reply.body.blog)
    ensures h.reply.HasStatus(Created) ==>
      && h.reply.body.blog.owner == jwt.subject
      && h.reply.body.blog.title == req.title.value
      && h.reply.body.blog.description == Some(req.description.value)
      && h.reply.body.blog.tags == req.tags
      && h.reply.body.blog.contect == ""
      && h.reply.body.blog.likes == 0 && h.reply.body.blog.dislikes == 0
    ensures Valid(db) ==> Valid(h.state)
  {
    match Authenticate(db.users, jwt)
    case NotAttempted => Handled(Respond(BadRequest, Msg(JwtMessage)), db)
    case AuthenticationFailed => Handled(Respond(BadRequest, Msg(JwtMessage)), db)
    case Authenticated(owner) =>
      if !Truthy(req.title) then Handled(Respond(BadRequest, Msg(TitleRequired)), db)
      else if !Truthy(req.description) then Handled(Respond(BadRequest, Msg(DescriptionRequired)), db)
      else if !Truthy(req.content) then Handled(Respond(BadRequest, Msg(ContentRequired)), db)
      else
        // the content is never handed to the create call, and tags are passed even when absent
        var b := NewBlog(req.title.value, req.description, Omitted, Given(req.tags), owner);
        var (id, db') := InsertBlog(db, b);
        Handled(Respond(Created, BlogData(id, b)), db')
  }

  /** Tags never decide acceptance: dropping them leaves the status unchanged. */
  lemma CreateBlogTagsOptional(db: Db, jwt: Jwt, req: CreateBlogRequest)
    ensures CreateBlog(db, jwt, req).reply.HasStatus(Created)
        <==> CreateBlog(db, jwt, req.(tags := None)).reply.HasStatus(Created)
    ensures CreateBlog(db, jwt, req.(tags := None)).reply.HasStatus(Created) ==>
      CreateBlog(db, jwt, req.(tags := None)).reply.body.blog.tags == None
  {
  }

  /**
   * `create_blog` as evidently intended: the same checks in the same order,
   * but the content is stored and absent tags take the "none" default.
   */
  function CreateBlogIntended(db: Db, jwt: Jwt, req: CreateBlogRequest): (h: Handled<DocBody, Db>)
    ensures h.reply.HasStatus(Created) <==> CreateBlog(db, jwt, req).reply.HasStatus(Created)
    ensures !h.reply.HasStatus(Created) ==> h == CreateBlog(db, jwt, req)
    ensures h.reply.HasStatus(Created) ==>
      && h.reply.body.BlogData?
      && h.reply.body.blog.title == req.title.value
      && h.reply.body.blog.description == Some(req.description.value)
      && h.reply.body.blog.contect == req.content.value
      && h.reply.body.blog.tags == (if req.tags.None? then Some(DefaultTags) else req.tags)
      && h.reply.body.blog.owner == jwt.subject
      && h.reply.body.blog.likes == 0 && h.reply.body.blog.dislikes == 0
    ensures h.reply.HasStatus(Created) && Valid(db) ==>
      AddsBlog(db, h.state, h.reply.body.id, h.reply.body.blog)
    ensures Valid(db) ==> Valid(h.state)
  {
    match Authenticate(db.users, jwt)
    case NotAttempted => Handled(Respond(BadRequest, Msg(JwtMessage)), db)
    case AuthenticationFailed => Handled(Respond(BadRequest, Msg(JwtMessage)), db)
    case Authenticated(owner) =>
      if !Truthy(req.title) then Handled(Respond(BadRequest, Msg(TitleRequired)), db)
      else if !Truthy(req.description) then Handled(Respond(BadRequest, Msg(DescriptionRequired)), db)
      else if !Truthy(req.content) then Handled(Respond(BadRequest, Msg(ContentRequired)), db)
      else
        var tags := if req.tags.None? then Omitted else Given(req.tags);
        var b := NewBlog(req.title.value, req.description, Given(req.content.value), tags, owner);
        var (id, db') := InsertBlog(db, b);
        Handled(Respond(Created, BlogData(id, b)), db')
  }

  /** A database holding one user, "alice", and nothing else. */
  function AliceOnly(hash: string -> string): Db {
    Db(map["alice" := NewUser(hash, "Alice", "A", "alice", "normal", "pw")], map[], map[], 1, 1)
  }

  /**
   * As written, a blog posted with content "c" and no tags is stored with
   * an empty content and null tags; as intended, with "c" and "none".
   */
  lemma CreateBlogDropsContentExample(hash: string -> string)
    ensures var req := CreateBlogRequest(Some("Hi"), Some("d"), None, Some("c"));
      var h := CreateBlog(AliceOnly(hash), ValidToken("alice"), req);
      var g := CreateBlogIntended(AliceOnly(hash), ValidToken("alice"), req);
      && h.reply.HasStatus(Created) && h.reply.body.blog.owner == "alice"
      && h.reply.body.blog.contect == "" && h.reply.body.blog.tags == None
      && g.reply.HasStatus(Created)
      && g.reply.body.blog.contect == "c" && g.reply.body.blog.tags == Some("none")
  {
  }

  // ---------------------------------------------------------------------
  // sub_comment

  predicate IsDigit(c: char) {
    '0' <= c <= '9'
  }

  predicate AllDigits(s: string) {
    forall i :: 0 <= i < |s| ==> IsDigit(s[i])
  }

  /** The value of a string of decimal digits. */
  function DigitsValue(s: string): nat
    requires AllDigits(s)
    decreases |s|
  {
    if |s| == 0 then 0
    else 10 * DigitsValue(s[..|s| - 1]) + (s[|s| - 1] as int - '0' as int)
  }

  /**
   * The integer conversion the `id` lookup applies to the request's text:
   * an optional sign followed by decimal digits; anything else makes the
   * lookup raise ValueError.
   */
  function ParseInt(s: string): Option<int> {
    if |s| > 0 && AllDigits(s) then Some(DigitsValue(s))
    else if |s| > 1 && (s[0] == '+' || s[0] == '-') && AllDigits(s[1..]) then
      var magnitude: int := DigitsValue(s[1..]);
      Some(if s[0] == '-' then -magnitude else magnitude)
    else None
  }

  /** The decimal text of an id, as a client would send it. */
  function DecimalText(n: nat): (s: string)
    ensures |s| > 0 && AllDigits(s)
    decreases n
  {
    if n < 10 then [('0' as int + n) as char]
    else DecimalText(n / 10) + [('0' as int + n % 10) as char]
  }

  /** Reading back the decimal text of an id gives that id. */
  lemma {:induction false} ParseDecimalText(n: nat)
    ensures ParseInt(DecimalText(n)) == Some(n)
    ensures DigitsValue(DecimalText(n)) == n
    decreases n
  {
    var s := DecimalText(n);
    if n >= 10 {
      ParseDecimalText(n / 10);
      assert s[..|s| - 1] == DecimalText(n / 10);
      assert s[|s| - 1] as int - '0' as int == n % 10;
    }
    assert DigitsValue(s) == n;
  }

  /**
   * `Blog.objects.filter(id=blog_id)`: a query set of the blogs with that
   * id, or None when the conversion of the id raises ValueError. It never
   * raises `Blog.DoesNotExist`.
   */
  function FilterById(db: Db, blogId: string): (rows: Option<set<nat>>)
    ensures rows.Some? <==> ParseInt(blogId).Some?
    ensures rows.Some? ==> forall k :: k in rows.value <==> k in db.blogs && k == ParseInt(blogId).value
  {
    match ParseInt(blogId)
    case None => None
    case Some(n) => Some(set k | k in db.blogs && k == n)
  }

  /** What is handed to `Comment.objects.create` as `blog`: one Blog row, or a query set. */
  datatype BlogArg = BlogRow(id: nat) | BlogQuerySet(ids: set<nat>)

  /** How `Comment.objects.create` ends. */
  datatype CommentCreation =
    | Saved(id: nat, comment: Comment, db: Db)
    | OrmValueError(message: string)
    | OrmIntegrityError

  /** The message of the ValueError the Comment.blog descriptor raises; the query set's repr is abbreviated. */
  const QuerySetAssignMessage := "Cannot assign \"<QuerySet>\": \"Comment.blog\" must be a \"Blog\" instance."

  /**
   * `Comment.objects.create(content=..., blog=..., owner=...)`: assigning
   * anything but a Blog row to the foreign key raises ValueError while the
   * row is built; a missing owner or a dangling reference is refused by the
   * database when the row is saved.
   */
  function CreateComment(db: Db, content: string, blog: BlogArg, owner: Option<string>): (o: CommentCreation)
    ensures blog.BlogQuerySet? ==> o == OrmValueError(QuerySetAssignMessage)
    ensures o.Saved? <==> blog.BlogRow? && owner.Some? && blog.id in db.blogs && owner.value in db.users
    ensures o.Saved? ==>
      && o.comment == Comment(content, 0, 0, blog.id, owner.value)
      && o.db.comments == db.comments[o.id := o.comment]
      && o.db.users == db.users && o.db.blogs == db.blogs
    ensures o.Saved? && Valid(db) ==> o.id !in db.comments && Valid(o.db)
  {
    match blog
    case BlogQuerySet(_) => OrmValueError(QuerySetAssignMessage)
    case BlogRow(b) =>
      if owner.None? || b !in db.blogs || owner.value !in db.users then OrmIntegrityError
      else
        var c := NewComment(content, b, owner.value);
        var (id, db') := InsertComment(db, c);
        Saved(id, c, db')
  }

  /** The two body fields `sub_comment` reads. */
  datatype SubCommentRequest = SubCommentRequest(content: Field, blogId: Field)

  /**
   * `sub_comment` as written: content first, then blog_id; the filtered
   * query set, not a blog, is passed to the create call, and no owner is
   * passed. The ValueError that follows is caught and answered with 400,
   * so no comment is ever stored and the 404 branch is never taken.
   */
  function SubComment(db: Db, req: SubCommentRequest): (h: Handled<DocBody, Db>)
    ensures !Truthy(req.content) ==> h == Handled(Respond(BadRequest, Msg(ContentRequired)), db)
    ensures Truthy(req.content) && !Truthy(req.blogId) ==> h == Handled(Respond(BadRequest, Msg(BlogIdRequired)), db)
    ensures (Truthy(req.content) && Truthy(req.blogId) && ParseInt(req.blogId.value).None?) ==>
      h == Handled(Unhandled(UncaughtValueError), db)
    ensures (Truthy(req.content) && Truthy(req.blogId) && ParseInt(req.blogId.value).Some?) ==>
      h == Handled(Respond(BadRequest, Msg(QuerySetAssignMessage)), db)
    ensures h.state == db
    ensures !h.reply.HasStatus(Created) && !h.reply.HasStatus(NotFound)
  {
    if !Truthy(req.content) then Handled(Respond(BadRequest, Msg(ContentRequired)), db)
    else if !Truthy(req.blogId) then Handled(Respond(BadRequest, Msg(BlogIdRequired)), db)
    else
      match FilterById(db, req.blogId.value)
      case None => Handled(Unhandled(UncaughtValueError), db)
      case Some(rows) =>
        match CreateComment(db, req.content.value, BlogQuerySet(rows), None)
        case Saved(id, c, db') => Handled(Respond(Created, CommentData(id, c)), db')
        case OrmValueError(m) => Handled(Respond(BadRequest, Msg(m)), db)
        case OrmIntegrityError => Handled(Unhandled(UncaughtIntegrityError), db)
  }

  function NoBlogMessage(blogId: string): string {
    "there is no blog with " + blogId + " id"
  }

  /**
   * `sub_comment` as evidently intended: the same two field checks, then
   * the blog looked up by id (404 when there is none), and the comment
   * created on that blog with the requesting user as its owner.
   */
  function SubCommentIntended(db: Db, actor: string, req: SubCommentRequest): (h: Handled<DocBody, Db>)
    ensures !Truthy(req.content) || !Truthy(req.blogId) ==> h == SubComment(db, req)
    ensures (Truthy(req.content) && Truthy(req.blogId) && ParseInt(req.blogId.value).Some?
             && FilterById(db, req.blogId.value).value == {}) ==>
      h == Handled(Respond(NotFound, Msg(NoBlogMessage(req.blogId.value))), db)
    ensures h.reply.HasStatus(Created) ==>
      && h.reply.body.CommentData?
      && h.reply.body.comment == NewComment(req.content.value, h.reply.body.comment.blog, actor)
      && h.reply.body.comment.blog in db.blogs
      && Truthy(req.blogId) && ParseInt(req.blogId.value).Some?
      && h.reply.body.comment.blog as int == ParseInt(req.blogId.value).value
      && h.state.comments == db.comments[h.reply.body.id := h.reply.body.comment]
      && h.state.blogs == db.blogs && h.state.users == db.users
    ensures h.reply.HasStatus(Created) && Valid(db) ==> h.reply.body.id !in db.comments
    ensures !h.reply.HasStatus(Created) ==> h.state == db
    ensures Valid(db) ==> Valid(h.state)
  {
    if !Truthy(req.content) then Handled(Respond(BadRequest, Msg(ContentRequired)), db)
    else if !Truthy(req.blogId) then Handled(Respond(BadRequest, Msg(BlogIdRequired)), db)
    else
      match ParseInt(req.blogId.value)
      case None => Handled(Unhandled(UncaughtValueError), db)
      case Some(n) =>
        if n < 0 || (n as nat) !in db.blogs then
          Handled(Respond(NotFound, Msg(NoBlogMessage(req.blogId.value))), db)
        else
          match CreateComment(db, req.content.value, BlogRow(n as nat), Some(actor))
          case Saved(id, c, db') => Handled(Respond(Created, CommentData(id, c)), db')
          case OrmValueError(m) => Handled(Respond(BadRequest, Msg(m)), db)
          case OrmIntegrityError => Handled(Unhandled(UncaughtIntegrityError), db)
  }

  /**
   * As intended, a registered user commenting on an existing blog, named by
   * its decimal id, always gets 201 and the comment is stored.
   */
  lemma SubCommentIntendedCreates(db: Db, actor: string, content: string, id: nat)
    requires Valid(db)
    requires actor in db.users && id in db.blogs && content != ""
    ensures var h := SubCommentIntended(db, actor, SubCommentRequest(Some(content), Some(DecimalText(id))));
      && h.reply.HasStatus(Created)
      && h.reply.body.comment == Comment(content, 0, 0, id, actor)
      && h.reply.body.id in h.state.comments && h.reply.body.id !in db.comments
      && Valid(h.state)
  {
    ParseDecimalText(id);
  }

  /**
   * As written, the same request on an existing blog is refused with 400
   * and nothing is stored.
   */
  lemma SubCommentRejectsExistingBlog(db: Db, content: string, id: nat)
    requires id in db.blogs && content != ""
    ensures var h := SubComment(db, SubCommentRequest(Some(content), Some(DecimalText(id))));
      h == Handled(Respond(BadRequest, Msg(QuerySetAssignMessage)), db)
  {
    ParseDecimalText(id);
  }
}
