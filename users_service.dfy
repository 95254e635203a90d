/** The user table and the operations of `UsersService` on it: creating a
    user (with the duplicate-key translation), finding one by email, and the
    `$push` / `$pull` updates of a user's list of owned blog ids. */
module Users {
  import opened Http

  type UserId = string
  type BlogId = string

  /** A stored user document; `blogs` is the list of ids of the blogs it owns, in push order. */
  datatype User = User(name: string, email: string, password: string, blogs: seq<BlogId>)

  /** A user document together with its `_id`, as a query returns it. */
  datatype UserDoc = UserDoc(id: UserId, user: User)

  /** The data `create` hands to the store. */
  datatype NewUser = NewUser(name: string, email: string, password: string)

  /** The two operations `updateUserBlogs` accepts. */
  datatype BlogsOperation = Add | Remove

  /** The unique index on `email`: no two users share an email. */
  ghost predicate EmailsUnique(users: map<UserId, User>)
  {
    forall i, j :: i in users && j in users && users[i].email == users[j].email ==> i == j
  }

  predicate EmailTaken(users: map<UserId, User>, email: string)
  {
    exists id :: id in users && users[id].email == email
  }

  /** `findOne({ email })`: the user whose email is exactly `email`, or null. */
  function FindOneByEmail(users: map<UserId, User>, email: string): (r: Option<UserDoc>)
    requires EmailsUnique(users)
    ensures r.Some? ==> r.value.id in users && users[r.value.id] == r.value.user && r.value.user.email == email
    ensures r.None? <==> !EmailTaken(users, email)
  {
    if EmailTaken(users, email) then
      var id :| id in users && users[id].email == email;
      Some(UserDoc(id, users[id]))
    else
      None
  }

  /** The error code the server reports for a duplicate key. */
  const DuplicateKeyCode := 11000

  /** The error the unique email index raises on an insert. */
  const DuplicateKeyError := StoreError(Some(DuplicateKeyCode), "E11000 duplicate key error")

  /** What the store's insert does: a failure of its own, else the unique
      index's duplicate-key error, else success. */
  function InsertOutcome(users: map<UserId, User>, data: NewUser, store: StoreOutcome): (o: StoreOutcome)
    ensures o.Succeeds? <==> store.Succeeds? && !EmailTaken(users, data.email)
    ensures store.Fails? ==> o == store
    ensures store.Succeeds? && EmailTaken(users, data.email) ==> o.error.code == Some(DuplicateKeyCode)
  {
    if store.Fails? then store
    else if EmailTaken(users, data.email) then Fails(DuplicateKeyError)
    else Succeeds
  }

  /** The `catch` of `create`: a duplicate key becomes a conflict, anything else a server error. */
  function TranslateCreateError(e: StoreError): (r: Exception)
    ensures r.Conflict? <==> e.code == Some(DuplicateKeyCode)
    ensures r.Conflict? || r.InternalServerError?
    ensures r.InternalServerError? ==> r.message == "Failed to create user: " + e.message
  {
    if e.code == Some(DuplicateKeyCode) then Conflict("Email already exists")
    else InternalServerError("Failed to create user: " + e.message)
  }

  /** `$pull`: every occurrence of `b` removed, the rest kept in order. */
  function Pull(s: seq<BlogId>, b: BlogId): (r: seq<BlogId>)
    ensures b !in r
    ensures forall x :: x in r <==> x in s && x != b
    ensures |r| <= |s|
  {
    if s == [] then []
    else (if s[0] == b then [] else [s[0]]) + Pull(s[1..], b)
  }

  /** The list `updateUserBlogs` leaves: `$push` appends, `$pull` removes all occurrences. */
  function UpdatedList(s: seq<BlogId>, b: BlogId, op: BlogsOperation): seq<BlogId>
  {
    match op
    case Add => s + [b]
    case Remove => Pull(s, b)
  }

  /** The user table after `findByIdAndUpdate(userId, {$push | $pull})`: a
      missing user is no error and no change; otherwise only that user's
      `blogs` field changes. */
  function UpdateBlogs(users: map<UserId, User>, userId: UserId, b: BlogId, op: BlogsOperation): (r: map<UserId, User>)
    ensures r.Keys == users.Keys
    ensures forall id :: id in users && id != userId ==> r[id] == users[id]
    ensures userId in users ==>
      && r[userId].name == users[userId].name
      && r[userId].email == users[userId].email
      && r[userId].password == users[userId].password
    ensures userId !in users ==> r == users
  {
    if userId in users then
      users[userId := users[userId].(blogs := UpdatedList(users[userId].blogs, b, op))]
    else
      users
  }

  /** `$push` keeps what was there and puts `b` last, a duplicate included. */
  lemma PushAppends(users: map<UserId, User>, userId: UserId, b: BlogId)
    requires userId in users
    ensures var r := UpdateBlogs(users, userId, b, Add);
      |r[userId].blogs| == |users[userId].blogs| + 1
      && r[userId].blogs[..|users[userId].blogs|] == users[userId].blogs
      && r[userId].blogs[|users[userId].blogs|] == b
  {
  }

  /** `$pull` distributes over concatenation: the survivors keep their order. */
  lemma {:induction false} PullConcat(s: seq<BlogId>, t: seq<BlogId>, b: BlogId)
    ensures Pull(s + t, b) == Pull(s, b) + Pull(t, b)
    decreases |s|
  {
    if s == [] {
      assert s + t == t;
    } else {
      PullConcat(s[1..], t, b);
      assert (s + t)[1..] == s[1..] + t;
    }
  }

  /** `$pull` takes out exactly the occurrences of `b`. */
  lemma {:induction false} PullMultiset(s: seq<BlogId>, b: BlogId)
    ensures multiset(Pull(s, b)) == multiset(s)[b := 0]
    decreases |s|
  {
    if s != [] {
      PullMultiset(s[1..], b);
      assert s == [s[0]] + s[1..];
    }
  }

  /** Pulling an id that is not in the list changes nothing. */
  lemma {:induction false} PullAbsent(s: seq<BlogId>, b: BlogId)
    requires b !in s
    ensures Pull(s, b) == s
    decreases |s|
  {
    if s != [] {
      PullAbsent(s[1..], b);
      assert s == [s[0]] + s[1..];
    }
  }

  /** `$pull` after `$push` of an id new to the list restores the list. */
  lemma PullUndoesPush(s: seq<BlogId>, b: BlogId)
    requires b !in s
    ensures Pull(s + [b], b) == s
  {
    PullConcat(s, [b], b);
    PullAbsent(s, b);
  }

  /** The blog-list updates leave the emails, and so their uniqueness, alone. */
  lemma UpdateBlogsKeepsEmailsUnique(users: map<UserId, User>, userId: UserId, b: BlogId, op: BlogsOperation)
    requires EmailsUnique(users)
    ensures EmailsUnique(UpdateBlogs(users, userId, b, op))
  {
    var r := UpdateBlogs(users, userId, b, op);
    forall i, j | i in r && j in r && r[i].email == r[j].email
      ensures i == j
    {
      assert r[i].email == users[i].email && r[j].email == users[j].email;
    }
  }

  class UsersService {
    var users: map<UserId, User>

    ghost predicate Valid()
      reads this
    {
      EmailsUnique(users)
    }

    constructor ()
      ensures Valid() && users == map[]
    {
      users := map[];
    }

    /** `create(signupData)`: insert a user under the fresh id the store
        assigns; a duplicate email (or any error with code 11000) is a
        conflict, any other store failure a server error, and a failed
        insert leaves the table as it was. */
    method Create(data: NewUser, newId: UserId, store: StoreOutcome) returns (r: Result<UserDoc>)
      requires Valid()
      requires newId !in users
      modifies this
      ensures Valid()
      ensures r.Ok? <==> store.Succeeds? && !EmailTaken(old(users), data.email)
      ensures r.Ok? ==> r.value == UserDoc(newId, User(data.name, data.email, data.password, []))
                        && users == old(users)[newId := r.value.user]
      ensures r.Err? ==> users == old(users)
                         && r.error == TranslateCreateError(InsertOutcome(old(users), data, store).error)
      ensures store.Succeeds? && EmailTaken(old(users), data.email) ==> r == Err(Conflict("Email already exists"))
    {
      var outcome := InsertOutcome(users, data, store);
      if outcome.Fails? {
        return Err(TranslateCreateError(outcome.error));
      }
      var user := User(data.name, data.email, data.password, []);
      users := users[newId := user];
      r := Ok(UserDoc(newId, user));
    }

    /** `updateUserBlogs(userId, blogId, op)`: one `findByIdAndUpdate` with
        `$push` or `$pull`; a store failure becomes a server error and
        changes nothing. */
    method UpdateUserBlogs(userId: UserId, blogId: BlogId, op: BlogsOperation, store: StoreOutcome) returns (r: Result<()>)
      requires Valid()
      modifies this
      ensures Valid()
      ensures store.Succeeds? ==> r == Ok(()) && users == UpdateBlogs(old(users), userId, blogId, op)
      ensures store.Fails? ==> r == Err(InternalServerError("Failed to update user blogs: " + store.error.message))
                               && users == old(users)
    {
      if store.Fails? {
        return Err(InternalServerError("Failed to update user blogs: " + store.error.message));
      }
      UpdateBlogsKeepsEmailsUnique(users, userId, blogId, op);
      users := UpdateBlogs(users, userId, blogId, op);
      r := Ok(());
    }
  }
}
