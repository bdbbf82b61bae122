/**
 * Blog and Comment rows (Document/models.py), the database that holds them
 * next to the user table, its referential integrity, and the cascading
 * deletes the foreign keys declare.
 */
module Documents {
  import opened Wrappers
  import opened Users

  /** One Blog row. `contect` is the file field, spelled as the column is. */
  datatype Blog = Blog(
    title: string,
    description: Option<string>,
    contect: string,
    tags: Option<string>,
    likes: int,
    dislikes: int,
    owner: string)

  /** One Comment row: its text, counters, parent blog id and owner. */
  datatype Comment = Comment(
    content: string,
    like: int,
    dislike: int,
    blog: nat,
    owner: string)

  /** The three tables, with the next id each auto-increment key will hand out. */
  datatype Db = Db(
    users: UserStore,
    blogs: map<nat, Blog>,
    comments: map<nat, Comment>,
    nextBlogId: nat,
    nextCommentId: nat)

  /**
   * Referential integrity: names are unique, every blog has an existing
   * owner, every comment an existing blog and an existing owner, and every
   * id is below its table's counter.
   */
  predicate Valid(db: Db) {
    && UniqueNames(db.users)
    && (forall id :: id in db.blogs ==> db.blogs[id].owner in db.users && id < db.nextBlogId)
    && (forall id :: id in db.comments ==>
          && db.comments[id].blog in db.blogs
          && db.comments[id].owner in db.users
          && id < db.nextCommentId)
  }

  /** A keyword argument of an ORM create call: left out, or passed (possibly as None). */
  datatype Kwarg<+T> = Omitted | Given(value: T)

  const DefaultTags := "none"

  /**
   * `Blog.objects.create(...)` builds this row: counters start at zero,
   * tags fall back to "none" only when the keyword is left out, and the
   * file field holds the empty name when it is left out.
   */
  function NewBlog(title: string, description: Option<string>, contect: Kwarg<string>,
                   tags: Kwarg<Option<string>>, owner: string): (b: Blog)
    ensures b.likes == 0 && b.dislikes == 0
    ensures tags.Omitted? ==> b.tags == Some(DefaultTags)
    ensures tags.Given? ==> b.tags == tags.value
    ensures contect.Omitted? ==> b.contect == ""
    ensures contect.Given? ==> b.contect == contect.value
    ensures b.title == title && b.description == description && b.owner == owner
  {
    Blog(title, description,
         if contect.Given? then contect.value else "",
         if tags.Given? then tags.value else Some(DefaultTags),
         0, 0, owner)
  }

  /** A fresh Comment row: both counters start at zero. */
  function NewComment(content: string, blog: nat, owner: string): (c: Comment)
    ensures c.like == 0 && c.dislike == 0
    ensures c.content == content && c.blog == blog && c.owner == owner
  {
    Comment(content, 0, 0, blog, owner)
  }

  /** Saving a new blog row under the next id. */
  function InsertBlog(db: Db, b: Blog): (r: (nat, Db))
    ensures Valid(db) ==> r.0 !in db.blogs
    ensures r.1.blogs == db.blogs[r.0 := b]
    ensures r.1.users == db.users && r.1.comments == db.comments
    ensures Valid(db) && b.owner in db.users ==> Valid(r.1)
  {
    (db.nextBlogId, db.(blogs := db.blogs[db.nextBlogId := b], nextBlogId := db.nextBlogId + 1))
  }

  /** Saving a new comment row under the next id. */
  function InsertComment(db: Db, c: Comment): (r: (nat, Db))
    ensures Valid(db) ==> r.0 !in db.comments
    ensures r.1.comments == db.comments[r.0 := c]
    ensures r.1.users == db.users && r.1.blogs == db.blogs
    ensures Valid(db) && c.blog in db.blogs && c.owner in db.users ==> Valid(r.1)
  {
    (db.nextCommentId, db.(comments := db.comments[db.nextCommentId := c], nextCommentId := db.nextCommentId + 1))
  }

  /**
   * Deleting a blog: the row goes, and with it every comment whose blog it
   * was (`on_delete=CASCADE` on Comment.blog); nothing else changes.
   */
  function DeleteBlog(db: Db, id: nat): (r: Db)
    ensures id !in r.blogs
    ensures forall k :: k in db.blogs && k != id ==> k in r.blogs && r.blogs[k] == db.blogs[k]
    ensures r.blogs.Keys == db.blogs.Keys - {id}
    ensures forall c :: c in db.comments ==> (c in r.comments <==> db.comments[c].blog != id)
    ensures forall c :: c in r.comments ==> c in db.comments && r.comments[c] == db.comments[c]
    ensures r.users == db.users
    ensures Valid(db) ==> Valid(r)
  {
    db.(blogs := map k | k in db.blogs && k != id :: db.blogs[k],
        comments := map c | c in db.comments && db.comments[c].blog != id :: db.comments[c])
  }

  /** Whether deleting user `name` takes comment `c` with it: it is theirs, or it sits on a blog of theirs. */
  predicate DoomedWithUser(db: Db, c: Comment, name: string) {
    c.owner == name || (c.blog in db.blogs && db.blogs[c.blog].owner == name)
  }

  /**
   * Deleting a user: the row goes, with every blog they own (Blog.owner),
   * every comment on those blogs (Comment.blog) and every comment they
   * wrote (Comment.owner).
   */
  function DeleteUser(db: Db, name: string): (r: Db)
    ensures name !in r.users
    ensures r.users.Keys == db.users.Keys - {name}
    ensures forall u :: u in r.users ==> r.users[u] == db.users[u]
    ensures forall b :: b in db.blogs ==> (b in r.blogs <==> db.blogs[b].owner != name)
    ensures forall c :: c in db.comments ==> (c in r.comments <==> !DoomedWithUser(db, db.comments[c], name))
    ensures forall b :: b in r.blogs ==> b in db.blogs && r.blogs[b] == db.blogs[b]
    ensures forall c :: c in r.comments ==> c in db.comments && r.comments[c] == db.comments[c]
    ensures Valid(db) ==> Valid(r)
  {
    db.(users := map u | u in db.users && u != name :: db.users[u],
        blogs := map b | b in db.blogs && db.blogs[b].owner != name :: db.blogs[b],
        comments := map c | c in db.comments && !DoomedWithUser(db, db.comments[c], name) :: db.comments[c])
  }

  /** Deleting blogs one after another, each with its cascade. */
  function DeleteBlogs(db: Db, ids: seq<nat>): Db
    decreases |ids|
  {
    if |ids| == 0 then db else DeleteBlogs(DeleteBlog(db, ids[0]), ids[1..])
  }

  /** Deleting a sequence of blogs removes exactly those blogs and exactly the comments on them. */
  lemma {:induction false} DeleteBlogsRemovesExactly(db: Db, ids: seq<nat>)
    ensures var r := DeleteBlogs(db, ids);
      && r.users == db.users
      && r.nextBlogId == db.nextBlogId && r.nextCommentId == db.nextCommentId
      && r.blogs == (map k | k in db.blogs && k !in ids :: db.blogs[k])
      && r.comments == (map c | c in db.comments && db.comments[c].blog !in ids :: db.comments[c])
    decreases |ids|
  {
    if |ids| == 0 {
      assert (map k | k in db.blogs && k !in ids :: db.blogs[k]) == db.blogs;
      assert (map c | c in db.comments && db.comments[c].blog !in ids :: db.comments[c]) == db.comments;
    } else {
      var db1 := DeleteBlog(db, ids[0]);
      DeleteBlogsRemovesExactly(db1, ids[1..]);
      assert forall k :: k in ids <==> k == ids[0] || k in ids[1..];
      var r := DeleteBlogs(db, ids);
      assert r == DeleteBlogs(db1, ids[1..]);
      assert r.blogs == (map k | k in db.blogs && k !in ids :: db.blogs[k]);
      assert r.comments == (map c | c in db.comments && db.comments[c].blog !in ids :: db.comments[c]);
    }
  }

  /** Removes what is left of a user once their blogs are gone: their comments and their row. */
  function DropOwnRows(db: Db, name: string): Db {
    db.(users := map u | u in db.users && u != name :: db.users[u],
        blogs := map b | b in db.blogs && db.blogs[b].owner != name :: db.blogs[b],
        comments := map c | c in db.comments && db.comments[c].owner != name :: db.comments[c])
  }

  /**
   * Deleting a user the way the cascades do it agrees with `DeleteUser`:
   * each of their blogs with its comments, then their remaining comments
   * and their row.
   */
  lemma DeleteUserIsBlogCascade(db: Db, name: string, ids: seq<nat>)
    requires forall i :: 0 <= i < |ids| ==> ids[i] in db.blogs && db.blogs[ids[i]].owner == name
    requires forall k :: k in db.blogs && db.blogs[k].owner == name ==> k in ids
    ensures DeleteUser(db, name) == DropOwnRows(DeleteBlogs(db, ids), name)
  {
    DeleteBlogsRemovesExactly(db, ids);
    var mid := DeleteBlogs(db, ids);
    SameBlogsLeft(db, name, ids, mid.blogs);
    SameCommentsLeft(db, name, ids, mid.comments);
  }

  /** Once the user's blogs are gone, dropping those they own leaves what `DeleteUser` leaves. */
  lemma SameBlogsLeft(db: Db, name: string, ids: seq<nat>, left: map<nat, Blog>)
    requires forall i :: 0 <= i < |ids| ==> ids[i] in db.blogs && db.blogs[ids[i]].owner == name
    requires forall k :: k in db.blogs && db.blogs[k].owner == name ==> k in ids
    requires left == (map k | k in db.blogs && k !in ids :: db.blogs[k])
    ensures (map b | b in left && left[b].owner != name :: left[b])
         == (map b | b in db.blogs && db.blogs[b].owner != name :: db.blogs[b])
  {
  }

  /** Once the comments on the user's blogs are gone, dropping theirs leaves what `DeleteUser` leaves. */
  lemma SameCommentsLeft(db: Db, name: string, ids: seq<nat>, left: map<nat, Comment>)
    requires forall i :: 0 <= i < |ids| ==> ids[i] in db.blogs && db.blogs[ids[i]].owner == name
    requires forall k :: k in db.blogs && db.blogs[k].owner == name ==> k in ids
    requires left == (map c | c in db.comments && db.comments[c].blog !in ids :: db.comments[c])
    ensures (map c | c in left && left[c].owner != name :: left[c])
         == (map c | c in db.comments && !DoomedWithUser(db, db.comments[c], name) :: db.comments[c])
  {
  }
}
