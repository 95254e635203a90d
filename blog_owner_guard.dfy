/** `BlogOwnerGuard.canActivate`: fetch the blog of the route through
    `findOne` and let the request through only when the blog's owner is the
    request's current user. Every failure of the fetch becomes the same
    Unauthorized, so the guard tells nobody whether the blog exists. The
    guard reads `req.currentUser` as the middleware left it: a user, null,
    or never assigned. On the routes it protects it runs before the
    `AuthGuard`, so an anonymous request reaches it. */
module BlogOwnerGuard {
  import opened Http
  import opened Users
  import opened Blogs
  import opened CurrentUser

  const NotAuthorized := "You are not authorized to perform this action"

  /** What reading `_id` of null throws: a blog whose owner `populate` did
      not find, or a current user set to null. */
  const NullIdMessage := "Cannot read properties of null (reading '_id')"

  /** What reading `_id` of a current user never assigned throws. */
  const UndefinedIdMessage := "Cannot read properties of undefined (reading '_id')"

  /** The TypeError `user._id` throws for a request without a current user. */
  function MissingUserMessage(currentUser: CurrentUserSlot): (m: string)
    requires !currentUser.Assigned?
    ensures currentUser.Unassigned? ==> m == UndefinedIdMessage
    ensures currentUser.NullUser? ==> m == NullIdMessage
  {
    if currentUser.Unassigned? then UndefinedIdMessage else NullIdMessage
  }

  /** `canActivate` for the route parameter `blogId` and the request's
      current user. It answers true or throws; it never answers false. The
      owner's `_id` is read before the user's, so a missing owner decides
      first. */
  function CanActivate(service: BlogsService, currentUser: CurrentUserSlot, blogId: string, read: StoreOutcome): (r: Result<bool>)
    reads service, service.usersService
    ensures r.Ok? ==> r.value
    ensures r.Ok? <==>
      && service.isObjectId(blogId) && read.Succeeds? && blogId in service.blogs
      && currentUser.Assigned?
      && service.blogs[blogId].owner == currentUser.doc.id
      && currentUser.doc.id in service.usersService.users
    // a fetch that fails for any reason, a bad id or a missing blog included,
    // is unauthorized, whoever asks
    ensures service.ValidateBlogId(blogId, read).Err? ==> r == Err(Unauthorized(NotAuthorized))
    // a blog whose owner is no longer a user: the TypeError on the owner
    ensures service.ValidateBlogId(blogId, read).Ok? && service.blogs[blogId].owner !in service.usersService.users
            ==> r == Err(Unhandled(NullIdMessage))
    // an existing blog and owner, but no current user: the TypeError on the user
    ensures && service.ValidateBlogId(blogId, read).Ok?
            && service.blogs[blogId].owner in service.usersService.users
            && !currentUser.Assigned?
            ==> r == Err(Unhandled(MissingUserMessage(currentUser)))
    // a blog owned by another existing user is unauthorized
    ensures && service.ValidateBlogId(blogId, read).Ok?
            && service.blogs[blogId].owner in service.usersService.users
            && currentUser.Assigned? && service.blogs[blogId].owner != currentUser.doc.id
            ==> r == Err(Unauthorized(NotAuthorized))
    ensures !(r.Err? && (r.error.NotFound? || r.error.BadRequest?))
  {
    match service.FindOne(blogId, read)
    case Err(_) => Err(Unauthorized(NotAuthorized))
    case Ok(blog) =>
      if blog.owner.None? then Err(Unhandled(NullIdMessage))
      else if !currentUser.Assigned? then Err(Unhandled(MissingUserMessage(currentUser)))
      else if blog.owner.value.id != currentUser.doc.id then Err(Unauthorized(NotAuthorized))
      else Ok(true)
  }

  /** An anonymous request for an existing blog of an existing user is not
      refused as unauthorized: it fails with a server-side TypeError. */
  lemma AnonymousRequestIsServerError(service: BlogsService, blogId: string)
    requires service.isObjectId(blogId) && blogId in service.blogs
    requires service.blogs[blogId].owner in service.usersService.users
    ensures CanActivate(service, Unassigned, blogId, Succeeds) == Err(Unhandled(UndefinedIdMessage))
    ensures CanActivate(service, NullUser, blogId, Succeeds) == Err(Unhandled(NullIdMessage))
  {
  }
}
