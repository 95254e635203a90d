/** `BlogsController`: the checks it makes on query parameters before it
    calls the service, the filter it builds, and the routes that pass the
    current user's id to the service (behind `BlogOwnerGuard` where the
    route has it). Query values arrive as strings and are read by
    JavaScript's number coercion; a `QueryNumber` is the result of it. */
module BlogsController {
  import opened Http
  import opened Users
  import opened Blogs
  import opened CurrentUser
  import Ownership
  import BlogOwnerGuard

  /** A numeric query parameter: absent, or what `Number(value)` gives for
      it (an integer, or NaN). */
  datatype QueryNumber = Absent | Numeric(value: int) | NotANumber

  const DefaultPage := 1
  const DefaultLimit := 10

  /** The parameter's value once its default is applied. */
  function WithDefault(q: QueryNumber, default: int): (n: int)
    requires !q.NotANumber?
    ensures q.Absent? ==> n == default
    ensures q.Numeric? ==> n == q.value
  {
    if q.Absent? then default else q.value
  }

  /** `findAllPaginated(page = 1, limit = 10)`: a page that is no number is
      rejected first, then a limit that is no number; otherwise the service
      answers. */
  function FindAllPaginated(all: seq<BlogDoc>, page: QueryNumber, limit: QueryNumber, read: StoreOutcome): (r: Result<PageResult>)
    ensures page.NotANumber? ==> r == Err(BadRequest("Page must be a number"))
    ensures !page.NotANumber? && limit.NotANumber? ==> r == Err(BadRequest("Limit must be a number"))
    ensures r.Err? && r.error.BadRequest? <==> page.NotANumber? || limit.NotANumber?
    ensures !page.NotANumber? && !limit.NotANumber? ==>
      r == Blogs.FindAllPaginated(all, WithDefault(page, DefaultPage), WithDefault(limit, DefaultLimit), read)
  {
    if page.NotANumber? then Err(BadRequest("Page must be a number"))
    else if limit.NotANumber? then Err(BadRequest("Limit must be a number"))
    else Blogs.FindAllPaginated(all, WithDefault(page, DefaultPage), WithDefault(limit, DefaultLimit), read)
  }

  /** With neither parameter given, the answer is the first ten blogs of the
      listing and the count of all of them. */
  lemma DefaultsGiveFirstTen(all: seq<BlogDoc>)
    ensures FindAllPaginated(all, Absent, Absent, Succeeds)
            == Ok(PageResult(if |all| <= 10 then all else all[..10], |all|))
  {
    assert all[0..] == all;
  }

  /** `?page=` (empty) reads as page 0: the skip is negative and the store
      refuses it, so the request ends as a server error, not a bad request. */
  lemma EmptyPageIsServerError(all: seq<BlogDoc>)
    ensures var r := FindAllPaginated(all, Numeric(0), Absent, Succeeds);
      r.Err? && r.error.InternalServerError?
  {
  }

  /** `searchBlogs(keyword)`: a missing or empty keyword is a bad request and
      the service is not asked; `search` is the service's search. */
  function SearchBlogs(keyword: Option<string>, search: string -> Result<seq<BlogDoc>>): (r: Result<seq<BlogDoc>>)
    ensures keyword.None? || keyword.value == "" ==> r == Err(BadRequest("Keyword is required"))
    ensures keyword.Some? && keyword.value != "" ==> r == search(keyword.value)
  {
    if keyword.None? || keyword.value == "" then Err(BadRequest("Keyword is required"))
    else search(keyword.value)
  }

  /** The filter `filterBlogs` assembles: a key for each parameter given with
      a non-empty value, and no other key. */
  method BuildFilter(category: Option<string>, owner: Option<string>) returns (filter: map<string, string>)
    ensures filter.Keys <= {"category", "owner"}
    ensures "category" in filter <==> category.Some? && category.value != ""
    ensures "category" in filter ==> filter["category"] == category.value
    ensures "owner" in filter <==> owner.Some? && owner.value != ""
    ensures "owner" in filter ==> filter["owner"] == owner.value
  {
    filter := map[];
    if category.Some? && category.value != "" {
      filter := filter["category" := category.value];
    }
    if owner.Some? && owner.value != "" {
      filter := filter["owner" := owner.value];
    }
  }

  /** `filterBlogs(category?, owner?)`: the blogs matching every parameter
      given with a non-empty value; an empty parameter filters nothing. */
  method FilterBlogs(all: seq<BlogDoc>, category: Option<string>, owner: Option<string>, isObjectId: string -> bool, read: StoreOutcome)
    returns (r: Result<seq<BlogDoc>>)
    ensures r.Ok? <==> read.Succeeds? && (owner.Some? && owner.value != "" ==> isObjectId(owner.value))
    ensures r.Err? ==> r.error.InternalServerError?
    ensures r.Ok? ==> forall d :: d in r.value <==>
      && d in all
      && (category.Some? && category.value != "" ==> d.blog.category == category.value)
      && (owner.Some? && owner.value != "" ==> d.blog.owner == owner.value)
    ensures r.Ok? && (category.None? || category.value == "") && (owner.None? || owner.value == "") ==> r.value == all
  {
    var filter := BuildFilter(category, owner);
    r := Blogs.FilterBlogs(all, filter, isObjectId, read);
  }

  class BlogsController {
    const service: BlogsService

    constructor (service: BlogsService)
      ensures this.service == service
    {
      this.service := service;
    }

    /** `create(req, dto)`: the service's create with the current user's id
        as owner. For an owner who is a user, a full success keeps the two
        tables consistent. */
    method Create(currentUserId: UserId, dto: CreateBlogInput, newId: BlogId, save: StoreOutcome, push: StoreOutcome, compensate: StoreOutcome)
      returns (r: Result<BlogDoc>)
      requires service.Valid()
      requires newId !in service.blogs
      modifies service, service.usersService
      ensures service.Valid()
      // the save fails: nothing changes
      ensures save.Fails? ==>
        && r == Err(InternalServerError("Failed to create blog: " + save.error.message))
        && service.blogs == old(service.blogs) && service.usersService.users == old(service.usersService.users)
      // both steps succeed: the blog, owned by the current user, is stored and listed
      ensures save.Succeeds? && push.Succeeds? ==>
        && r == Ok(BlogDoc(newId, NewBlog(dto, currentUserId)))
        && service.blogs == old(service.blogs)[newId := NewBlog(dto, currentUserId)]
        && service.usersService.users == UpdateBlogs(old(service.usersService.users), currentUserId, newId, Add)
      // the push fails and the compensating delete succeeds: neither table changes
      ensures save.Succeeds? && push.Fails? && compensate.Succeeds? ==>
        && r == Err(InternalServerError("Failed to update user blogs: " + ("Failed to update user blogs: " + push.error.message)))
        && service.blogs == old(service.blogs) && service.usersService.users == old(service.usersService.users)
      // the push fails and so does the delete: the blog remains, unlisted
      ensures save.Succeeds? && push.Fails? && compensate.Fails? ==>
        && r == Err(Unhandled(compensate.error.message))
        && service.blogs == old(service.blogs)[newId := NewBlog(dto, currentUserId)]
        && service.usersService.users == old(service.usersService.users)
      ensures r.Ok? ==> r.value.blog.owner == currentUserId
      ensures r.Ok? && currentUserId in old(service.usersService.users)
              && Ownership.Consistent(old(service.usersService.users), old(service.blogs))
              ==> Ownership.Consistent(service.usersService.users, service.blogs)
    {
      ghost var users0, blogs0 := service.usersService.users, service.blogs;
      r := service.Create(dto, currentUserId, newId, save, push, compensate);
      if r.Ok? && currentUserId in users0 && Ownership.Consistent(users0, blogs0) {
        Ownership.CreateKeepsConsistent(users0, blogs0, dto, currentUserId, newId);
      }
    }

    /** `remove(req, id)` behind `BlogOwnerGuard`: a refusal of the guard is
        the answer and changes nothing. Past the guard the request has a
        current user who owns the blog, so the pull is made on the real
        owner's list; then the service's outcomes follow, and a full success
        keeps the two tables consistent. */
    method Remove(currentUser: CurrentUserSlot, id: BlogId, read: StoreOutcome, pull: StoreOutcome, delete: StoreOutcome)
      returns (r: Result<Option<BlogDoc>>)
      requires service.Valid()
      modifies service, service.usersService
      ensures service.Valid()
      ensures old(BlogOwnerGuard.CanActivate(service, currentUser, id, read)).Err? ==>
        && r == Err(old(BlogOwnerGuard.CanActivate(service, currentUser, id, read)).error)
        && service.blogs == old(service.blogs)
        && service.usersService.users == old(service.usersService.users)
      ensures old(BlogOwnerGuard.CanActivate(service, currentUser, id, read)).Ok? ==>
        && currentUser.Assigned?
        && id in old(service.blogs) && old(service.blogs)[id].owner == currentUser.doc.id
        // the pull fails: nothing changes
        && (pull.Fails? ==>
              && r == Err(InternalServerError("Failed to remove blog: " + ("Failed to update user blogs: " + pull.error.message)))
              && service.blogs == old(service.blogs)
              && service.usersService.users == old(service.usersService.users))
        // the pull succeeds: the owner's list no longer holds the id
        && (pull.Succeeds? ==>
              service.usersService.users == UpdateBlogs(old(service.usersService.users), currentUser.doc.id, id, BlogsOperation.Remove))
        // ... but the delete fails: the blog is still stored
        && (pull.Succeeds? && delete.Fails? ==>
              && r == Err(InternalServerError("Failed to remove blog: " + delete.error.message))
              && service.blogs == old(service.blogs))
        // both succeed: the blog is gone and returned
        && (pull.Succeeds? && delete.Succeeds? ==>
              && service.blogs == old(service.blogs) - {id}
              && r == Ok(Some(BlogDoc(id, old(service.blogs)[id]))))
      ensures old(BlogOwnerGuard.CanActivate(service, currentUser, id, read)).Ok? && pull.Succeeds? && delete.Succeeds?
              && Ownership.Consistent(old(service.usersService.users), old(service.blogs))
              ==> Ownership.Consistent(service.usersService.users, service.blogs)
    {
      var allowed := BlogOwnerGuard.CanActivate(service, currentUser, id, read);
      if allowed.Err? {
        return Err(allowed.error);
      }
      ghost var users0, blogs0 := service.usersService.users, service.blogs;
      r := service.Remove(id, currentUser.doc.id, pull, delete);
      if pull.Succeeds? && delete.Succeeds? && Ownership.Consistent(users0, blogs0) {
        Ownership.RemoveKeepsConsistent(users0, blogs0, id, currentUser.doc.id);
      }
    }

    /** `update(id, dto)` behind `BlogOwnerGuard`: a refusal of the guard is
        the answer and changes nothing; past it, the service's update of the
        caller's own blog, which keeps its owner. */
    method Update(currentUser: CurrentUserSlot, id: BlogId, dto: UpdateBlogInput, read: StoreOutcome, write: StoreOutcome)
      returns (r: Result<Option<BlogView>>)
      modifies service
      ensures old(BlogOwnerGuard.CanActivate(service, currentUser, id, read)).Err? ==>
        && r == Err(old(BlogOwnerGuard.CanActivate(service, currentUser, id, read)).error)
        && service.blogs == old(service.blogs)
      ensures old(BlogOwnerGuard.CanActivate(service, currentUser, id, read)).Ok? ==>
        && currentUser.Assigned?
        && service.blogs.Keys == old(service.blogs).Keys
        && service.blogs[id].owner == currentUser.doc.id
        && (write.Fails? ==>
              && r == Err(InternalServerError("Failed to update blog: " + write.error.message))
              && service.blogs == old(service.blogs))
        && (write.Succeeds? ==>
              && service.blogs == old(service.blogs)[id := ApplyUpdate(old(service.blogs)[id], dto)]
              && r == Ok(Some(Populate(service.usersService.users, id, service.blogs[id]))))
    {
      var allowed := BlogOwnerGuard.CanActivate(service, currentUser, id, read);
      if allowed.Err? {
        return Err(allowed.error);
      }
      r := service.Update(id, dto, write);
    }
  }
}
