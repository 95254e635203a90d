/** The blog table and `BlogsService`: creating a blog and linking it to its
    owner (with the compensating delete), removing it (unlink first, then
    delete), updating it, fetching it by id, and the paginated and filtered
    read queries. */
module Blogs {
  import opened Http
  import opened Users

  /** A stored blog document; `owner` is the id of the owning user. */
  datatype Blog = Blog(title: string, content: string, category: string, owner: UserId)

  /** A blog document together with its `_id`. */
  datatype BlogDoc = BlogDoc(id: BlogId, blog: Blog)

  /** The validated body of a create request. */
  datatype CreateBlogInput = CreateBlogInput(title: string, content: string, category: string)

  /** The validated body of an update request; an absent field is `None`. */
  datatype UpdateBlogInput = UpdateBlogInput(title: Option<string>, content: Option<string>, category: Option<string>)

  /** The owner as `populate('owner')` resolves it. */
  datatype OwnerSummary = OwnerSummary(id: UserId, name: string, email: string)

  /** A blog with its owner populated: `None` when the owner id no longer names a user (populate yields null). */
  datatype BlogView = BlogView(id: BlogId, title: string, content: string, category: string, owner: Option<OwnerSummary>)

  /** `{ ...blog, owner: ownerId }`. */
  function NewBlog(input: CreateBlogInput, ownerId: UserId): (b: Blog)
    ensures b.title == input.title && b.content == input.content && b.category == input.category
    ensures b.owner == ownerId
  {
    Blog(input.title, input.content, input.category, ownerId)
  }

  function Populate(users: map<UserId, User>, id: BlogId, b: Blog): (v: BlogView)
    ensures v.id == id && v.title == b.title && v.content == b.content && v.category == b.category
    ensures v.owner.Some? <==> b.owner in users
    ensures v.owner.Some? ==> v.owner.value == OwnerSummary(b.owner, users[b.owner].name, users[b.owner].email)
  {
    var owner := if b.owner in users then Some(OwnerSummary(b.owner, users[b.owner].name, users[b.owner].email)) else None;
    BlogView(id, b.title, b.content, b.category, owner)
  }

  /** The document `findByIdAndUpdate(id, dto)` stores: the fields present in
      the body are overwritten, every other field, the owner included, is kept. */
  function ApplyUpdate(b: Blog, dto: UpdateBlogInput): (r: Blog)
    ensures r.owner == b.owner
    ensures r.title == (if dto.title.Some? then dto.title.value else b.title)
    ensures r.content == (if dto.content.Some? then dto.content.value else b.content)
    ensures r.category == (if dto.category.Some? then dto.category.value else b.category)
  {
    var title := if dto.title.Some? then dto.title.value else b.title;
    var content := if dto.content.Some? then dto.content.value else b.content;
    var category := if dto.category.Some? then dto.category.value else b.category;
    b.(title := title, content := content, category := category)
  }

  /** An update with no fields present leaves the blog as it is, and applying the same update twice is applying it once. */
  lemma ApplyUpdateIdempotent(b: Blog, dto: UpdateBlogInput)
    ensures ApplyUpdate(ApplyUpdate(b, dto), dto) == ApplyUpdate(b, dto)
    ensures dto == UpdateBlogInput(None, None, None) ==> ApplyUpdate(b, dto) == b
  {
  }

  // ---------------------------------------------------------------- read queries

  /** `all` lists the documents of the table `blogs`, each once, in the order the store returns them. */
  ghost predicate Enumerates(all: seq<BlogDoc>, blogs: map<BlogId, Blog>)
  {
    && (forall i :: 0 <= i < |all| ==> all[i].id in blogs && blogs[all[i].id] == all[i].blog)
    && (forall id :: id in blogs ==> exists i :: 0 <= i < |all| && all[i].id == id)
    && (forall i, j :: 0 <= i < j < |all| ==> all[i].id != all[j].id)
  }

  /** A list of distinct ids has as many ids as its set. */
  lemma {:induction false} DistinctIdsCount(all: seq<BlogDoc>)
    requires forall i, j :: 0 <= i < j < |all| ==> all[i].id != all[j].id
    ensures |set i | 0 <= i < |all| :: all[i].id| == |all|
    decreases |all|
  {
    if all != [] {
      var tail := all[1..];
      DistinctIdsCount(tail);
      var ids := set i | 0 <= i < |all| :: all[i].id;
      var tailIds := set i | 0 <= i < |tail| :: tail[i].id;
      assert ids == {all[0].id} + tailIds by {
        forall x | x in ids ensures x in {all[0].id} + tailIds {
          var i :| 0 <= i < |all| && all[i].id == x;
          if i > 0 { assert tail[i - 1].id == x; }
        }
        forall x | x in tailIds ensures x in ids {
          var i :| 0 <= i < |tail| && tail[i].id == x;
          assert all[i + 1].id == x;
        }
      }
      assert all[0].id !in tailIds by {
        forall i | 0 <= i < |tail| ensures tail[i].id != all[0].id {
          assert tail[i] == all[i + 1];
        }
      }
    }
  }

  /** A listing of the table is as long as the table is large. */
  lemma ListingSize(all: seq<BlogDoc>, blogs: map<BlogId, Blog>)
    requires Enumerates(all, blogs)
    ensures |all| == |blogs|
  {
    var ids := set i | 0 <= i < |all| :: all[i].id;
    DistinctIdsCount(all);
    assert ids == blogs.Keys;
  }

  /** `findAll()`: every blog of the listing, or a server error when the read fails. */
  function FindAll(all: seq<BlogDoc>, read: StoreOutcome): (r: Result<seq<BlogDoc>>)
    ensures r.Ok? <==> read.Succeeds?
    ensures r.Ok? ==> r.value == all
    ensures read.Fails? ==> r == Err(InternalServerError("Failed to fetch blogs: " + read.error.message))
  {
    if read.Fails? then Err(InternalServerError("Failed to fetch blogs: " + read.error.message))
    else Ok(all)
  }

  /** What `find().skip(skip).limit(limit)` returns from `all`: MongoDB reads a
      limit of 0 as no limit and a negative limit as its absolute value. */
  function Window(all: seq<BlogDoc>, skip: nat, limit: int): (w: seq<BlogDoc>)
    ensures skip >= |all| ==> w == []
    ensures skip < |all| && limit == 0 ==> |w| == |all| - skip
    ensures skip < |all| && limit != 0 ==>
      |w| == (if |all| - skip < Abs(limit) then |all| - skip else Abs(limit))
    ensures forall i :: 0 <= i < |w| ==> skip + i < |all| && w[i] == all[skip + i]
  {
    var rest := if skip <= |all| then all[skip..] else [];
    var n := Abs(limit);
    if limit == 0 || n >= |rest| then rest else rest[..n]
  }

  function Abs(n: int): nat
  {
    if n < 0 then -n else n
  }

  /** The page and the count `findAllPaginated` answers with. */
  datatype PageResult = PageResult(data: seq<BlogDoc>, total: int)

  /** Stand-in for the server's text when it rejects a negative skip. */
  const NegativeSkipMessage := "skip must be non-negative"

  /** `findAllPaginated(page, limit)` over the collection listed as `all`:
      the blogs from position `(page - 1) * limit` on, at most `limit` of
      them, and the count of all blogs whatever the page. */
  function FindAllPaginated(all: seq<BlogDoc>, page: int, limit: int, read: StoreOutcome): (r: Result<PageResult>)
    ensures read.Fails? ==> r == Err(InternalServerError("Failed to fetch paginated blogs: " + read.error.message))
    ensures r.Ok? <==> read.Succeeds? && (page - 1) * limit >= 0
    ensures r.Err? ==> r.error.InternalServerError?
    ensures r.Ok? ==> r.value.total == |all|
    // the blogs from the skip on, at most |limit| of them, all of them for a limit of 0
    ensures r.Ok? ==>
      var skip := (page - 1) * limit;
      && |r.value.data| == (if skip >= |all| then 0
                            else if limit == 0 || |all| - skip < Abs(limit) then |all| - skip
                            else Abs(limit))
      && forall i :: 0 <= i < |r.value.data| ==> skip + i < |all| && r.value.data[i] == all[skip + i]
  {
    if read.Fails? then
      Err(InternalServerError("Failed to fetch paginated blogs: " + read.error.message))
    else
      var skip := (page - 1) * limit;
      if skip < 0 then Err(InternalServerError("Failed to fetch paginated blogs: " + NegativeSkipMessage))
      else Ok(PageResult(Window(all, skip, limit), |all|))
  }

  /** Pages 1 to `n` of size `limit`, one after the other. */
  function PagesUpTo(all: seq<BlogDoc>, limit: nat, n: nat): seq<BlogDoc>
  {
    if n == 0 then [] else PagesUpTo(all, limit, n - 1) + Window(all, (n - 1) * limit, limit)
  }

  /** Reading pages 1, 2, ..., n in turn yields the first `n * limit` blogs of
      the listing, each once and in order: no blog is skipped or repeated. */
  lemma {:induction false} PagesCoverListing(all: seq<BlogDoc>, limit: nat, n: nat)
    requires limit > 0
    ensures PagesUpTo(all, limit, n) == all[..if n * limit <= |all| then n * limit else |all|]
    decreases n
  {
    if n > 0 {
      PagesCoverListing(all, limit, n - 1);
      var before := if (n - 1) * limit <= |all| then (n - 1) * limit else |all|;
      var after := if n * limit <= |all| then n * limit else |all|;
      assert (n - 1) * limit + limit == n * limit;
      assert all[..before] + all[before..after] == all[..after];
    }
  }

  /** Fifteen stored blogs, page 2 of 10: the last five, and a total of fifteen. */
  lemma SecondPageOfFifteen(all: seq<BlogDoc>)
    requires |all| == 15
    ensures FindAllPaginated(all, 2, 10, Succeeds) == Ok(PageResult(all[10..], 15))
    ensures |all[10..]| == 5
  {
  }

  /** A limit of 0 is no limit: every page, the first included, is the whole
      listing. */
  lemma LimitZeroReturnsAll(all: seq<BlogDoc>, page: int)
    ensures FindAllPaginated(all, page, 0, Succeeds) == Ok(PageResult(all, |all|))
  {
    assert all[0..] == all;
  }

  /** A negative limit turns the pages round: page 0 of `-n` is page 2 of
      `n`, and page 2 of `-n` asks for a negative skip, which fails. */
  lemma NegativeLimitPages(all: seq<BlogDoc>, n: int)
    requires n > 0
    ensures FindAllPaginated(all, 0, -n, Succeeds) == FindAllPaginated(all, 2, n, Succeeds)
    ensures FindAllPaginated(all, 2, -n, Succeeds).Err?
  {
  }

  /** Whether a document satisfies every key of a `{ category?, owner? }` filter. */
  predicate Matches(d: BlogDoc, filter: map<string, string>)
  {
    && ("category" in filter ==> d.blog.category == filter["category"])
    && ("owner" in filter ==> d.blog.owner == filter["owner"])
  }

  /** The matching documents of `all`, in the order of `all`. */
  function Select(all: seq<BlogDoc>, filter: map<string, string>): (r: seq<BlogDoc>)
    ensures forall d :: d in r <==> d in all && Matches(d, filter)
    ensures |r| <= |all|
  {
    if all == [] then []
    else (if Matches(all[0], filter) then [all[0]] else []) + Select(all[1..], filter)
  }

  /** Mongoose's message when the owner value is no ObjectId. */
  function CastErrorMessage(value: string): string
  {
    "Cast to ObjectId failed for value \"" + value + "\" (type string) at path \"owner\" for model \"Blog\""
  }

  /** `filterBlogs(filter)`: the blogs matching every key of the filter; an
      owner value that is no ObjectId makes the query fail, as does the store. */
  function FilterBlogs(all: seq<BlogDoc>, filter: map<string, string>, isObjectId: string -> bool, read: StoreOutcome): (r: Result<seq<BlogDoc>>)
    requires filter.Keys <= {"category", "owner"}
    ensures read.Fails? ==> r == Err(InternalServerError("Failed to filter blogs: " + read.error.message))
    ensures r.Ok? <==> read.Succeeds? && ("owner" in filter ==> isObjectId(filter["owner"]))
    ensures r.Err? ==> r.error.InternalServerError?
    ensures r.Ok? ==> forall d :: d in r.value <==> d in all && Matches(d, filter)
    ensures filter == map[] && r.Ok? ==> r.value == all
  {
    if read.Fails? then Err(InternalServerError("Failed to filter blogs: " + read.error.message))
    else if "owner" in filter && !isObjectId(filter["owner"]) then
      Err(InternalServerError("Failed to filter blogs: " + CastErrorMessage(filter["owner"])))
    else
      SelectAllWithEmptyFilter(all, filter);
      Ok(Select(all, filter))
  }

  lemma {:induction false} SelectAllWithEmptyFilter(all: seq<BlogDoc>, filter: map<string, string>)
    ensures filter == map[] ==> Select(all, filter) == all
    decreases |all|
  {
    if all != [] {
      SelectAllWithEmptyFilter(all[1..], filter);
      assert [all[0]] + all[1..] == all;
    }
  }

  // ---------------------------------------------------------------- the service

  class BlogsService {
    var blogs: map<BlogId, Blog>
    const usersService: UsersService
    /** `Types.ObjectId.isValid`, whose syntax belongs to Mongoose. */
    const isObjectId: string -> bool

    ghost predicate Valid()
      reads this, usersService
    {
      usersService.Valid()
    }

    constructor (usersService: UsersService, isObjectId: string -> bool)
      ensures this.usersService == usersService && this.isObjectId == isObjectId
      ensures blogs == map[]
    {
      this.usersService := usersService;
      this.isObjectId := isObjectId;
      blogs := map[];
    }

    /** `createNewBlog(blog, ownerId)`: save the document under the fresh id
        the store assigns; a failed save is a server error and stores nothing. */
    method CreateNewBlog(input: CreateBlogInput, ownerId: UserId, newId: BlogId, save: StoreOutcome) returns (r: Result<BlogDoc>)
      requires newId !in blogs
      modifies this
      ensures save.Succeeds? ==> r == Ok(BlogDoc(newId, NewBlog(input, ownerId)))
                                 && blogs == old(blogs)[newId := NewBlog(input, ownerId)]
      ensures save.Fails? ==> r == Err(InternalServerError("Failed to create blog: " + save.error.message))
                              && blogs == old(blogs)
    {
      if save.Fails? {
        return Err(InternalServerError("Failed to create blog: " + save.error.message));
      }
      var b := NewBlog(input, ownerId);
      blogs := blogs[newId := b];
      r := Ok(BlogDoc(newId, b));
    }

    /** `blogModel.findByIdAndDelete(id)`: the deleted document, or null when
        there was none; a store failure propagates as the driver's error. */
    method FindByIdAndDelete(id: BlogId, delete: StoreOutcome) returns (r: Result<Option<BlogDoc>>)
      modifies this
      ensures delete.Fails? ==> r == Err(Unhandled(delete.error.message)) && blogs == old(blogs)
      ensures delete.Succeeds? ==> blogs == old(blogs) - {id}
                                   && r == Ok(if id in old(blogs) then Some(BlogDoc(id, old(blogs)[id])) else None)
    {
      if delete.Fails? {
        return Err(Unhandled(delete.error.message));
      }
      r := Ok(if id in blogs then Some(BlogDoc(id, blogs[id])) else None);
      blogs := blogs - {id};
    }

    /** `create(blog, ownerId)`: save the blog, then push its id onto the
        owner's list. If the push fails, delete the blog again and report a
        server error; if that delete fails too, its error escapes and the
        blog stays behind without an owner reference. */
    method Create(input: CreateBlogInput, ownerId: UserId, newId: BlogId, save: StoreOutcome, push: StoreOutcome, compensate: StoreOutcome)
      returns (r: Result<BlogDoc>)
      requires Valid()
      requires newId !in blogs
      modifies this, usersService
      ensures Valid()
      // the save fails: nothing changes
      ensures save.Fails? ==>
        && r == Err(InternalServerError("Failed to create blog: " + save.error.message))
        && blogs == old(blogs) && usersService.users == old(usersService.users)
      // both steps succeed: the blog is stored and linked
      ensures save.Succeeds? && push.Succeeds? ==>
        && r == Ok(BlogDoc(newId, NewBlog(input, ownerId)))
        && blogs == old(blogs)[newId := NewBlog(input, ownerId)]
        && usersService.users == UpdateBlogs(old(usersService.users), ownerId, newId, Add)
      // the push fails and the compensating delete succeeds: neither table changes
      ensures save.Succeeds? && push.Fails? && compensate.Succeeds? ==>
        && r == Err(InternalServerError("Failed to update user blogs: " + ("Failed to update user blogs: " + push.error.message)))
        && blogs == old(blogs) && usersService.users == old(usersService.users)
      // the push fails and so does the delete: the blog remains, unlinked
      ensures save.Succeeds? && push.Fails? && compensate.Fails? ==>
        && r == Err(Unhandled(compensate.error.message))
        && blogs == old(blogs)[newId := NewBlog(input, ownerId)]
        && usersService.users == old(usersService.users)
    {
      var saved := CreateNewBlog(input, ownerId, newId, save);
      if saved.Err? {
        return Err(saved.error);
      }
      var pushed := usersService.UpdateUserBlogs(ownerId, saved.value.id, Add, push);
      if pushed.Err? {
        var deleted := FindByIdAndDelete(saved.value.id, compensate);
        if deleted.Err? {
          return Err(deleted.error);
        }
        assert blogs == old(blogs);
        return Err(InternalServerError("Failed to update user blogs: " + pushed.error.message));
      }
      r := saved;
    }

    /** `remove(blogId, ownerId)`: pull the id from the owner's list first,
        then delete the blog; either failure is reported as a server error,
        and a failed delete leaves the list already pulled. */
    method Remove(blogId: BlogId, ownerId: UserId, pull: StoreOutcome, delete: StoreOutcome) returns (r: Result<Option<BlogDoc>>)
      requires Valid()
      modifies this, usersService
      ensures Valid()
      // the pull fails: nothing changes
      ensures pull.Fails? ==>
        && r == Err(InternalServerError("Failed to remove blog: " + ("Failed to update user blogs: " + pull.error.message)))
        && blogs == old(blogs) && usersService.users == old(usersService.users)
      // the pull succeeds: the owner's list no longer holds the id
      ensures pull.Succeeds? ==> usersService.users == UpdateBlogs(old(usersService.users), ownerId, blogId, BlogsOperation.Remove)
      // ... but the delete fails: the blog is still stored
      ensures pull.Succeeds? && delete.Fails? ==>
        && r == Err(InternalServerError("Failed to remove blog: " + delete.error.message))
        && blogs == old(blogs)
      // both succeed: the blog is gone, and the deleted document (or null) is returned
      ensures pull.Succeeds? && delete.Succeeds? ==>
        && blogs == old(blogs) - {blogId}
        && r == Ok(if blogId in old(blogs) then Some(BlogDoc(blogId, old(blogs)[blogId])) else None)
    {
      var pulled := usersService.UpdateUserBlogs(ownerId, blogId, BlogsOperation.Remove, pull);
      if pulled.Err? {
        return Err(InternalServerError("Failed to remove blog: " + pulled.error.message));
      }
      var deleted := FindByIdAndDelete(blogId, delete);
      if deleted.Err? {
        return Err(InternalServerError("Failed to remove blog: " + deleted.error.message));
      }
      r := deleted;
    }

    /** `update(id, dto)`: an id that is no ObjectId is a bad request and
        changes nothing; otherwise the present fields are overwritten and the
        updated blog is returned, or null when no blog has that id. */
    method Update(id: string, dto: UpdateBlogInput, write: StoreOutcome) returns (r: Result<Option<BlogView>>)
      modifies this
      ensures !isObjectId(id) ==> r == Err(BadRequest("Invalid blog ID")) && blogs == old(blogs)
      ensures isObjectId(id) && write.Fails? ==>
        && r == Err(InternalServerError("Failed to update blog: " + write.error.message))
        && blogs == old(blogs)
      ensures isObjectId(id) && write.Succeeds? && id !in old(blogs) ==> r == Ok(None) && blogs == old(blogs)
      ensures isObjectId(id) && write.Succeeds? && id in old(blogs) ==>
        && blogs == old(blogs)[id := ApplyUpdate(old(blogs)[id], dto)]
        && r == Ok(Some(Populate(usersService.users, id, blogs[id])))
    {
      if !isObjectId(id) {
        return Err(BadRequest("Invalid blog ID"));
      }
      if write.Fails? {
        return Err(InternalServerError("Failed to update blog: " + write.error.message));
      }
      if id !in blogs {
        return Ok(None);
      }
      blogs := blogs[id := ApplyUpdate(blogs[id], dto)];
      r := Ok(Some(Populate(usersService.users, id, blogs[id])));
    }

    /** `validateBlogId(id)`: an id that is no ObjectId is a bad request,
        decided before any lookup. The `NotFoundException` for a missing blog
        is thrown inside the `try` and rewrapped by its `catch`, so a missing
        blog, like a store failure, ends as a server error: no caller ever
        sees a not-found. */
    function ValidateBlogId(id: string, read: StoreOutcome): (r: Result<BlogView>)
      reads this, usersService
      ensures !isObjectId(id) ==> r == Err(BadRequest("Invalid blog ID"))
      ensures r.Ok? <==> isObjectId(id) && read.Succeeds? && id in blogs
      ensures r.Ok? ==> r.value == Populate(usersService.users, id, blogs[id])
      ensures isObjectId(id) && r.Err? ==> r.error.InternalServerError?
      ensures isObjectId(id) && read.Succeeds? && id !in blogs ==>
        r == Err(InternalServerError("Failed to fetch blog: Blog not found"))
      ensures !(r.Err? && r.error.NotFound?)
    {
      if !isObjectId(id) then Err(BadRequest("Invalid blog ID"))
      else
        var attempt := if read.Fails? then Err(Unhandled(read.error.message))
                       else if id !in blogs then Err(NotFound("Blog not found"))
                       else Ok(Populate(usersService.users, id, blogs[id]));
        if attempt.Err? then Err(InternalServerError("Failed to fetch blog: " + attempt.error.message))
        else attempt
    }

    /** `findOne(id)` delegates to `validateBlogId`. */
    function FindOne(id: string, read: StoreOutcome): Result<BlogView>
      reads this, usersService
    {
      ValidateBlogId(id, read)
    }
  }
}
