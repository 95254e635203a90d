# Blog management service — a Dafny model of its core

The system is a NestJS/Mongoose REST service. Users sign up and sign in, and
they create, update, delete, list and filter blogs. This project models the
logic under the framework wiring over two in-memory tables:

- the user table, `map<UserId, User>`, where each user carries the ordered
  list of the ids of the blogs it owns;
- the blog table, `map<BlogId, Blog>`, where each blog names its owner.

Every store call that can fail is an explicit outcome parameter
(`StoreOutcome = Succeeds | Fails(error)`). The model follows the control flow
of each service method and raises the exception the source raises, with its
message.

Modules, one per source file:

- `Http` (`http.dfy`): the exceptions, `Result`/`Option`, and store outcomes.
- `Text` (`text.dfy`): JavaScript `String.prototype.split` on one character, with `join` as its inverse.
- `Users` (`users_service.dfy`): `UsersService`. It covers `create` with the duplicate-key translation, `findOneByEmail`, and `updateUserBlogs`, whose `$push` appends and whose `$pull` removes every occurrence.
- `Blogs` (`blogs_service.dfy`): `BlogsService`.
  - `create` saves the blog, pushes it onto the owner's list, and deletes it again if the push fails.
  - `remove` pulls first, then deletes.
  - It also covers `update`, `validateBlogId`/`findOne`, `findAll`, `findAllPaginated` and `filterBlogs`.
- `Ownership` (`ownership.dfy`): the invariant that ties the two tables together, and which outcomes of `create` and `remove` keep or break it.
- `Auth` (`auth_service.dfy`): the password record `hex(salt) + "." + hex(key)`, its verification, `signIn`, `signUp`, and the token payload.
- `BlogOwnerGuard` (`blog_owner_guard.dfy`): the ownership check in front of delete and update.
- `CurrentUser` (`current_user_middleware.dfy`): bearer-token extraction, and how `req.currentUser` is decided.
- `BlogsController` (`blogs_controller.dfy`): the query-parameter checks and the filter builder. Its routes pass the current user's id, and the guard runs in front of them.
- `Validators`, `BlogDtos` and `UserDtos` (`validators.dfy`, `blog_dtos.dfy`, `user_dtos.dfy`): the class-validator decorators as predicates, the four DTOs as declared, and what each one accepts, field by field.

The services whose state changes are classes:

- `UsersService` has a `users` map field.
- `BlogsService` has a `blogs` map field and a reference to the `UsersService`.
- `Request` has a mutable `currentUser`.
- `SignUpBody` has the `password` that `signUp` overwrites in place.

Their methods are proved against the pure functions of the same module. For
example, `UsersService.UpdateUserBlogs` leaves `users == UpdateBlogs(old(users), ...)`,
and the lemmas are stated about `UpdateBlogs`, `Pull` and `Consistent`.

Library behaviour is taken as given and enters as parameters:

- scrypt: a function `Kdf` from password and salt string to bytes;
- the random salt;
- JWT verification: a function from token to `VerifyResult`;
- `Types.ObjectId.isValid`;
- validator.js `isEmail` and its symbol set.

A signed token is represented by the payload it signs.

## Model

| member | source | states |
|---|---|---|
| Text.Split | src/auth/auth.service.ts:92 | `split` on one character gives at least one piece, and no piece holds the separator |
| Text.JoinSplit | src/auth/auth.service.ts:92 | joining the pieces of a split with the separator gives back the string: nothing is lost |
| Text.SplitJoin | src/auth/auth.service.ts:92 | splitting a join of separator-free pieces gives back the pieces |
| Users.FindOneByEmail | src/users/users.service.ts:53-56 | the result is a stored user whose email is exactly the argument; it is null exactly when no user has that email (emails are unique) |
| Users.InsertOutcome | src/users/users.service.ts:21 | the insert succeeds exactly when the store does and the email is not taken; a store failure passes through; a taken email fails with the duplicate-key code 11000 |
| Users.TranslateCreateError | src/users/users.service.ts:23-28 | the error is a Conflict exactly when the store's code is 11000; any other error is an InternalServerError "Failed to create user: " + message |
| Users.UsersService.Create | src/users/users.service.ts:19-29 | the insert succeeds exactly when the store does and the email is new, and the user is stored with an empty blog list; a duplicate email is a Conflict "Email already exists"; a failure changes nothing |
| Users.Pull | src/users/users.service.ts:71-74 | `$pull` leaves no occurrence of the id, keeps every other element, and never lengthens the list |
| Users.PullConcat | src/users/users.service.ts:71-74 | `$pull` distributes over concatenation, so the survivors keep their order |
| Users.PullMultiset | src/users/users.service.ts:71-74 | `$pull` removes exactly the occurrences of the id: the multiset loses them and nothing else |
| Users.PullAbsent | src/users/users.service.ts:71-74 | pulling an id that is not listed changes nothing |
| Users.PushAppends | src/users/users.service.ts:67-70 | `$push` keeps the old list as a prefix and puts the id last, a duplicate included |
| Users.PullUndoesPush | src/users/users.service.ts:67-74 | a pull after a push of a new id restores the list |
| Users.UpdateBlogs | src/users/users.service.ts:65-80 | only the `blogs` field of the named user changes; other users and fields are kept; a missing user means no change |
| Users.UpdateBlogsKeepsEmailsUnique | src/users/users.service.ts:65-80 | the blog-list updates keep emails unique |
| Users.UsersService.UpdateUserBlogs | src/users/users.service.ts:65-80 | on success the table is `UpdateBlogs` of the old one; a store failure is an InternalServerError "Failed to update user blogs: " + message, and nothing changes |
| Blogs.NewBlog | src/blogs/blogs.service.ts:47 | the new document carries the input's title, content and category, and the given owner id as owner |
| Blogs.Populate | src/blogs/blogs.service.ts:131 | the populated owner is null exactly when the owner id names no user; otherwise it is that user's id, name and email |
| Blogs.ApplyUpdate | src/blogs/blogs.service.ts:93 | each field given in the update is overwritten, every other field is kept, and the owner never changes |
| Blogs.ApplyUpdateIdempotent | src/blogs/blogs.service.ts:93 | an update applied twice equals the update applied once; an empty update is no change |
| Blogs.ListingSize | src/blogs/blogs.service.ts:153 | a listing of the table is exactly as long as the table is large, so `countDocuments` equals the listing's length |
| Blogs.FindAll | src/blogs/blogs.service.ts:60-67 | a successful read gives the whole listing; a failed one is an InternalServerError "Failed to fetch blogs: " + message |
| Blogs.Window | src/blogs/blogs.service.ts:152 | `skip(s).limit(l)` gives the blogs of the listing from position `s` on, in order: none past the end, all the rest for a limit of 0, and otherwise at most as many as the absolute value of `l` |
| Blogs.FindAllPaginated | src/blogs/blogs.service.ts:148-158 | `total` is the number of all blogs on every page; the data is the blogs from `(page-1)*limit` on, at most as many as the absolute value of `limit`, or all the rest for a limit of 0; a negative skip or a failed read is an InternalServerError |
| Blogs.LimitZeroReturnsAll | src/blogs/blogs.service.ts:151-152 | a limit of 0 gives the whole listing on every page |
| Blogs.NegativeLimitPages | src/blogs/blogs.service.ts:151-152 | with a negative limit `-n`, page 0 is page 2 of `n`, and page 2 fails on a negative skip |
| Blogs.PagesCoverListing | src/blogs/blogs.service.ts:150-151 | pages 1 to n, read in turn, give the first `n*limit` blogs of the listing in order, none skipped or repeated |
| Blogs.SecondPageOfFifteen | src/blogs/blogs.service.ts:148-158 | with fifteen blogs, page 2 of 10 gives the last five and a total of fifteen |
| Blogs.Select | src/blogs/blogs.service.ts:187 | a document is selected exactly when it is in the listing and matches every key of the filter |
| Blogs.SelectAllWithEmptyFilter | src/blogs/blogs.service.ts:187 | the empty filter selects the whole listing, in order |
| Blogs.FilterBlogs | src/blogs/blogs.service.ts:185-191 | the query succeeds exactly when the read does and any owner value is an ObjectId; the result holds exactly the matching blogs; every failure is an InternalServerError "Failed to filter blogs: ..." |
| Blogs.BlogsService.CreateNewBlog | src/blogs/blogs.service.ts:45-54 | a successful save stores the blog with the given owner under the new id; a failed one is an InternalServerError "Failed to create blog: " + message and stores nothing |
| Blogs.BlogsService.FindByIdAndDelete | src/blogs/blogs.service.ts:31 | the document is removed and returned, or null when absent; a store failure escapes as is and deletes nothing |
| Blogs.BlogsService.Create | src/blogs/blogs.service.ts:24-36 | the outcomes are: the save fails and nothing changes; save and push succeed and both tables are updated; the push fails and the compensating delete succeeds, so neither table changes and an InternalServerError is raised; the delete fails too, so the delete's error escapes and the blog stays, unlinked |
| Blogs.BlogsService.Remove | src/blogs/blogs.service.ts:108-116 | the pull comes first. If it fails, nothing changes. If the pull succeeds and the delete fails, the list is pulled but the blog stays. If both succeed, the blog is gone and is returned. Each failure is an InternalServerError "Failed to remove blog: " + message |
| Blogs.BlogsService.Update | src/blogs/blogs.service.ts:88-99 | an invalid id is a BadRequest "Invalid blog ID" and changes nothing; a failed write is an InternalServerError; a missing blog gives null; otherwise only the given fields change and the populated blog is returned |
| Blogs.BlogsService.ValidateBlogId | src/blogs/blogs.service.ts:126-140 | an invalid id is a BadRequest before any lookup; the result is the populated blog exactly when the id is valid, the read succeeds and the blog exists; a missing blog is an InternalServerError "Failed to fetch blog: Blog not found"; NotFound is never raised (this also covers `findOne`, lines 75-77) |
| Ownership.CreateKeepsConsistent | src/blogs/blogs.service.ts:24-36 | a create whose save and push succeed, for an existing owner, keeps every blog listed by its owner and every listed id stored |
| Ownership.OrphanBreaksConsistency | src/blogs/blogs.service.ts:29-33 | when the push and the compensating delete both fail, the blog is stored but no user lists it |
| Ownership.CreateForMissingOwnerBreaksConsistency | src/blogs/blogs.service.ts:24-36 | creating a blog for an owner id that names no user succeeds, but leaves the blog unlisted |
| Ownership.RemoveKeepsConsistent | src/blogs/blogs.service.ts:108-116 | a remove by the blog's owner whose pull and delete succeed keeps the tables consistent |
| Ownership.PartialRemoveBreaksConsistency | src/blogs/blogs.service.ts:110-114 | a pull that succeeds followed by a delete that fails leaves a stored blog that its owner no longer lists |
| Ownership.RemoveByOtherUserBreaksConsistency | src/blogs/blogs.service.ts:108-111 | `remove` given a user other than the owner deletes the blog and leaves the real owner listing a dangling id |
| Ownership.CreateThenRemoveRestores | src/blogs/blogs.service.ts:108-116 | a successful create followed by a successful remove of that blog by its owner restores both tables exactly |
| Auth.Hex | src/auth/auth.service.ts:80-82 | hex encoding gives two lower-case hex digits per byte |
| Auth.HexInjective | src/auth/auth.service.ts:82 | different byte strings have different hex encodings |
| Auth.HashPassword | src/auth/auth.service.ts:79-83 | the record splits on `.` into exactly two fields, the hex salt and the hex of the key derived from the password and the hex salt |
| Auth.HashPasswordFormat | src/auth/auth.service.ts:79-83 | with an 8-byte salt and a 32-byte key the record has 81 characters: 16 hex digits, a `.` at index 16, and 64 hex digits |
| Auth.VerifyComparesSecondField | src/auth/auth.service.ts:91-95 | verification compares the second field against the key derived from the first field; anything after a second `.` is ignored |
| Auth.VerifyNeedsSeparator | src/auth/auth.service.ts:92-94 | a record without `.` never verifies |
| Auth.HashThenVerify | src/auth/auth.service.ts:79-95 | round trip: a password verifies against its own record |
| Auth.VerifyOtherPassword | src/auth/auth.service.ts:91-95 | another password verifies against a record exactly when the KDF derives the same key from it and the record's salt |
| Auth.SignIn | src/auth/auth.service.ts:23-40 | an unknown email is a BadRequest, decided before any password check; a known email with a wrong password is Unauthorized; the answer is a token exactly when a user with that email has a verifying password, and the token is `{email, sub: id}` |
| Auth.SignedUpUserCanSignIn | src/auth/auth.service.ts:48-62 | a user stored the way sign-up stores one signs in with the same password and gets a token naming them |
| Auth.AuthService.SignUp | src/auth/auth.service.ts:48-62 | a taken email is a BadRequest "Email already in use" and nothing changes; otherwise the body's password becomes its record, and on success the user is stored with that record and the token is `{email, sub: newId}`; a create failure propagates as `create` translates it and stores nothing |
| BlogOwnerGuard.CanActivate | src/guards/blog-owner.guard.ts:12-31 | the guard never answers false. It passes exactly when the blog exists and its owner is the request's current user (who exists). Any failure of `findOne` is an Unauthorized, whoever asks, as is a blog of another user, so no NotFound or BadRequest escapes. A blog whose owner no longer exists is a TypeError on the owner's `_id`; otherwise a request without a current user (never assigned, or null) is a TypeError on the user's `_id` |
| BlogOwnerGuard.AnonymousRequestIsServerError | src/guards/blog-owner.guard.ts:26 | the guard runs before `AuthGuard`, so an anonymous request for an existing blog of an existing user is not refused as Unauthorized: it fails with the TypeError "Cannot read properties of undefined (reading '_id')", or "... of null ..." when the middleware set the user to null |
| CurrentUser.ExtractTokenFromHeader | src/middlewares/current-user.middleware.ts:65-68 | a missing header gives no token; a token holds no space and comes from a header whose first space-separated piece is exactly `Bearer` |
| CurrentUser.ExtractBearerToken | src/middlewares/current-user.middleware.ts:65-68 | `Bearer <token>`, possibly followed by more space-separated words, gives the token |
| CurrentUser.ExtractedTokenShape | src/middlewares/current-user.middleware.ts:65-68 | every token extracted comes from a header `Bearer <token>` that is possibly followed by more space-separated words |
| CurrentUser.LowerCaseSchemeRejected | src/middlewares/current-user.middleware.ts:67 | the scheme is case-sensitive: `bearer <token>` gives no token |
| CurrentUser.SchemeAloneRejected | src/middlewares/current-user.middleware.ts:66-67 | a header of just `Bearer` gives no token |
| CurrentUser.CurrentUserMiddleware.Use | src/middlewares/current-user.middleware.ts:31-58 | `next` is called exactly once. With no token or an empty one, `currentUser` is untouched. A rejected token, a payload without an email, or a failed lookup sets it to null. Otherwise it is set to the user with that email, or null |
| BlogsController.WithDefault | src/blogs/blogs.controller.ts:61-62 | an absent parameter takes its default, a given one its value |
| BlogsController.FindAllPaginated | src/blogs/blogs.controller.ts:60-67 | a non-numeric page is a BadRequest "Page must be a number", checked before the limit's "Limit must be a number"; these are the only BadRequests. Otherwise the service answers, with defaults page 1 and limit 10 |
| BlogsController.DefaultsGiveFirstTen | src/blogs/blogs.controller.ts:60-67 | with neither parameter, the answer is the first ten blogs and the count of all of them |
| BlogsController.EmptyPageIsServerError | src/blogs/blogs.controller.ts:64-66 | an empty page value passes the number check as 0 and then fails in the store as an InternalServerError |
| BlogsController.SearchBlogs | src/blogs/blogs.controller.ts:75-78 | a missing or empty keyword is a BadRequest "Keyword is required" and the service is not asked; otherwise the service's search answers |
| BlogsController.BuildFilter | src/blogs/blogs.controller.ts:91-93 | the filter has `category` exactly when a non-empty category is given, `owner` exactly when a non-empty owner is given, with those values, and no other key |
| BlogsController.FilterBlogs | src/blogs/blogs.controller.ts:87-95 | the result holds exactly the blogs matching every non-empty parameter; with none it is the whole listing; it fails only on a read failure or a non-ObjectId owner |
| BlogsController.BlogsController.Create | src/blogs/blogs.controller.ts:26-28 | the service's four outcomes with the current user as owner: a failed save changes nothing; a full success stores the blog and appends its id to the user's list; a failed push undone by the delete changes nothing and raises an InternalServerError; a failed delete leaves the blog stored and unlisted. For an existing user a full success keeps the tables consistent |
| BlogsController.BlogsController.Remove | src/blogs/blogs.controller.ts:44-50 | a guard refusal is the answer and changes nothing. Past the guard the caller owns the blog, so the pull hits the real owner's list. A failed pull changes nothing; a pulled list with a failed delete leaves the blog stored; each is an InternalServerError with the service's message. A full success deletes and returns the blog and keeps the tables consistent |
| BlogsController.BlogsController.Update | src/blogs/blogs.controller.ts:104-109 | a guard refusal is the answer and changes nothing; past the guard the caller's own blog has the given fields overwritten and keeps its owner, and a failed write changes nothing |
| Validators.ClassCountsBound | src/users/dto/signup.dto.ts:30 | counts of disjoint character classes never add up to more than the password's length |
| Validators.PropertyErrors | src/main.ts:28 | a property reports no message exactly when it passes all its constraints, or is optional and missing |
| Validators.Errors | src/main.ts:28 | the pipe reports no message exactly when the body passes the DTO |
| Validators.ExtraPropertiesIgnored | src/main.ts:28 | properties a DTO does not declare do not change the verdict (whitelist) |
| BlogDtos.CreateBlogDtoAccepts | src/blogs/dto/create-blog.dto.ts:5-39 | a create body passes exactly when the title is a string of 3-100 characters, the content one of 10-1200, and the category a non-empty string |
| BlogDtos.CreateNeedsCategory | src/blogs/dto/create-blog.dto.ts:31-39 | a create body without a category fails and reports "category is required" |
| BlogDtos.UpdateBlogDtoAccepts | src/blogs/dto/update-blog.dto.ts:5-39 | an update body passes exactly when each field is missing or, if given, has the bound of create; the category may be any string |
| BlogDtos.EmptyUpdatePasses | src/blogs/dto/update-blog.dto.ts:5-39 | the empty update body passes |
| BlogDtos.CreateBodyIsUpdateBody | src/blogs/dto/update-blog.dto.ts:5-39 | a body that passes as a create also passes as an update |
| BlogDtos.EmptyCategoryOnlyOnUpdate | src/blogs/dto/update-blog.dto.ts:31-39 | an empty category passes an update but not a create |
| UserDtos.NamePropertyAccepts | src/users/dto/signup.dto.ts:5-16 | the name passes exactly when it is a string of 3 to 30 characters |
| UserDtos.EmailPropertyAccepts | src/users/dto/signup.dto.ts:18-25 | the email passes exactly when it is a non-empty string the library takes for an address |
| UserDtos.PasswordPropertyAccepts | src/users/dto/signup.dto.ts:27-38 | the password passes exactly when it has at least 8 characters, 2 lower-case letters, 1 upper-case letter, 2 digits and 1 symbol |
| UserDtos.SignUpDtoAccepts | src/users/dto/signup.dto.ts:5-38 | a sign-up body passes exactly when the name, email and password rules all hold |
| UserDtos.SignInDtoAccepts | src/users/dto/signin.dto.ts:5-25 | a sign-in body passes exactly when the email and password rules hold |
| UserDtos.SamePasswordRule | src/users/dto/signin.dto.ts:14-25 | sign-in demands of a password exactly what sign-up does |
| UserDtos.ExamplePasswordAccepted | src/users/dto/signup.dto.ts:32 | the documented example `Password123!` is strong |
| UserDtos.OneDigitIsWeak | src/users/dto/signup.dto.ts:30 | a password with a single digit is weak, however long |
| UserDtos.SingleDigitExampleRejected | src/users/dto/signup.dto.ts:30 | `Str0ng!!Pw` is weak: it has one digit |
| UserDtos.StrongPasswordLength | src/users/dto/signup.dto.ts:29-30 | if symbols are neither letters nor digits, the class counts alone demand 6 characters, so the length rule of 8 is the binding one |

Behaviour of the code worth noting:

- `verifyPassword` splits the record on every `.` and takes the second field, not everything after the first `.`.
- An email already in use at sign-up is a `BadRequest("Email already in use")`, not a conflict.
- Sign-in bodies carry the same password-strength rule as sign-up.
- `validateBlogId` answers a missing blog with an InternalServerError, not a NotFound: the `NotFoundException` is thrown inside the `try` and rewrapped by its `catch`, despite the method's doc comment.
- A password such as `Str0ng!!Pw`, with one digit, is rejected by the declared rule (`UserDtos.SingleDigitExampleRejected`).
- `Auth.VerifyPassword`, `Validators.StrongPassword` and `Validators.Holds` are definitions without a contract of their own; their properties are stated by the lemmas about them (`Auth.HashThenVerify`, `Auth.VerifyComparesSecondField`, `Auth.VerifyNeedsSeparator`, `Auth.VerifyOtherPassword`; `UserDtos.PasswordPropertyAccepts`, `UserDtos.StrongPasswordLength`; `Validators.PropertyErrors` and the DTO lemmas).

## Left out

- scrypt, `randomBytes`, JWT signing and verification, and token expiry are library behaviour. They are parameters, and timing safety is not modelled.
- The `searchBlogs` service query matches its keyword as a case-insensitive regular expression. Regex semantics are not modelled; the controller's keyword check is modelled, and the search itself is a parameter.
- Concurrency is not modelled. Each `create` or `remove` is one sequential run; interleavings across requests are out.
- `populate` on the list queries (`findAll`, `findAllPaginated`, `filterBlogs`) is not modelled: those answer the stored documents. `findOne` and `update` do populate the owner.
- Blogs.FilterBlogs: the filter may only hold the keys `category` and `owner`, the only keys the controller builds. Matching on an arbitrary Mongo filter is not modelled.
- Blogs.NegativeSkipMessage stands in for the server's text when it refuses a negative skip; the exact wording belongs to MongoDB.
- BlogsController.FindAllPaginated: a query value is taken to coerce to an integer or to NaN. Fractional pages and limits are not modelled.
- String lengths are counted in characters. JavaScript counts UTF-16 code units, so strings outside the basic plane are not modelled.
- The `findOneByEmail` calls inside `signIn` and `signUp` are taken to succeed. A store failure there propagates unchanged in the source.
- The `AuthGuard` (`src/guards/auth.guard.ts`) is not part of this model. On the delete and update routes `BlogOwnerGuard` runs before it and is modelled with the request's current user as the middleware left it; past `BlogOwnerGuard` a current user exists, and the model runs the handler as if `AuthGuard` lets such a request through. The controller's `Create` takes the current user's id as given.
- Blog and user ids are taken in the canonical lower-case hex form MongoDB prints. The ObjectId cast accepts upper-case hex for the same id; that case-insensitivity is not modelled, so an id in another case names no stored blog here.
- The `ValidationPipe` is not wired into the routes. The DTO predicates describe what the pipe accepts, but the services are not given the precondition, so the claim that `signIn` never sees a weak password is not stated about `Auth.SignIn`.
- Fields sent as `null` in an update body are not modelled: the service models an update as fields present or absent.
- `SignUpDto` is modelled as declared. The sign-up route validates against another DTO, which is not part of this model, so the predicate is not a proven gate on that route.
- `usersService.findAll` and `findOne`, the auth controller, module wiring, Swagger, the serialize interceptor and the response DTOs are framework wiring or response shaping, and are not modelled.
- `BlogsService.findOne` is a direct delegation to `validateBlogId`, and `generateJwtToken` only builds the payload. Both are modelled (`Blogs.BlogsService.FindOne`, `Auth.GenerateJwtToken`) and carry no contract of their own. Their properties are stated in the rows of `ValidateBlogId` and `SignIn`/`SignUp`.
