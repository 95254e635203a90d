/** The invariant the create and remove protocols of `BlogsService` are
    written to keep between the two tables: every stored blog is listed by
    its owner, and every listed id names a stored blog of that owner. The
    lemmas say which outcomes of the protocols keep it and which known
    partial states break it. */
module Ownership {
  import opened Users
  import opened Blogs

  ghost predicate Consistent(users: map<UserId, User>, blogs: map<BlogId, Blog>)
  {
    && (forall b :: b in blogs ==> blogs[b].owner in users && b in users[blogs[b].owner].blogs)
    && (forall u, b :: u in users && b in users[u].blogs ==> b in blogs && blogs[b].owner == u)
  }

  /** A create whose save and push both succeed, for an existing owner, keeps the tables consistent. */
  lemma CreateKeepsConsistent(users: map<UserId, User>, blogs: map<BlogId, Blog>, input: CreateBlogInput, ownerId: UserId, newId: BlogId)
    requires Consistent(users, blogs)
    requires ownerId in users && newId !in blogs
    ensures Consistent(UpdateBlogs(users, ownerId, newId, Add), blogs[newId := NewBlog(input, ownerId)])
  {
    var users' := UpdateBlogs(users, ownerId, newId, Add);
    var blogs' := blogs[newId := NewBlog(input, ownerId)];
    forall b | b in blogs'
      ensures blogs'[b].owner in users' && b in users'[blogs'[b].owner].blogs
    {
      if b != newId {
        var u := blogs[b].owner;
        assert b in users[u].blogs;
        if u == ownerId {
          assert users'[u].blogs == users[u].blogs + [newId];
        }
      } else {
        assert users'[ownerId].blogs == users[ownerId].blogs + [newId];
      }
    }
    forall u, b | u in users' && b in users'[u].blogs
      ensures b in blogs' && blogs'[b].owner == u
    {
      if u == ownerId {
        assert users'[u].blogs == users[u].blogs + [newId];
        if b != newId {
          assert b in users[u].blogs;
        }
      } else {
        assert users'[u] == users[u];
      }
    }
  }

  /** A blog stored but not pushed onto its owner's list (the push failed
      and so did the compensating delete) breaks consistency: it is an
      orphan no owner lists. */
  lemma OrphanBreaksConsistency(users: map<UserId, User>, blogs: map<BlogId, Blog>, input: CreateBlogInput, ownerId: UserId, newId: BlogId)
    requires Consistent(users, blogs)
    requires newId !in blogs
    ensures !Consistent(users, blogs[newId := NewBlog(input, ownerId)])
  {
    var blogs' := blogs[newId := NewBlog(input, ownerId)];
    assert blogs'[newId].owner == ownerId;
    if ownerId in users {
      assert newId !in users[ownerId].blogs;
    }
  }

  /** Creating a blog for an owner id that names no user succeeds, but the
      push finds nobody to update, so the new blog is not listed anywhere. */
  lemma CreateForMissingOwnerBreaksConsistency(users: map<UserId, User>, blogs: map<BlogId, Blog>, input: CreateBlogInput, ownerId: UserId, newId: BlogId)
    requires ownerId !in users
    ensures !Consistent(UpdateBlogs(users, ownerId, newId, Add), blogs[newId := NewBlog(input, ownerId)])
  {
    var blogs' := blogs[newId := NewBlog(input, ownerId)];
    assert blogs'[newId].owner !in UpdateBlogs(users, ownerId, newId, Add);
  }

  /** Removing a blog by its owner, with the pull and the delete both
      succeeding, keeps the tables consistent. */
  lemma RemoveKeepsConsistent(users: map<UserId, User>, blogs: map<BlogId, Blog>, blogId: BlogId, ownerId: UserId)
    requires Consistent(users, blogs)
    requires blogId in blogs && blogs[blogId].owner == ownerId
    ensures Consistent(UpdateBlogs(users, ownerId, blogId, BlogsOperation.Remove), blogs - {blogId})
  {
    var users' := UpdateBlogs(users, ownerId, blogId, BlogsOperation.Remove);
    var blogs' := blogs - {blogId};
    forall b | b in blogs'
      ensures blogs'[b].owner in users' && b in users'[blogs'[b].owner].blogs
    {
      var u := blogs[b].owner;
      assert b in users[u].blogs;
      if u == ownerId {
        assert users'[u].blogs == Pull(users[u].blogs, blogId);
      }
    }
    forall u, b | u in users' && b in users'[u].blogs
      ensures b in blogs' && blogs'[b].owner == u
    {
      if u == ownerId {
        assert users'[u].blogs == Pull(users[u].blogs, blogId);
      } else {
        assert users'[u] == users[u];
      }
    }
  }

  /** The pull succeeded and the delete failed: the blog still exists but its
      owner no longer lists it. */
  lemma PartialRemoveBreaksConsistency(users: map<UserId, User>, blogs: map<BlogId, Blog>, blogId: BlogId, ownerId: UserId)
    requires Consistent(users, blogs)
    requires blogId in blogs && blogs[blogId].owner == ownerId
    ensures !Consistent(UpdateBlogs(users, ownerId, blogId, BlogsOperation.Remove), blogs)
  {
    var users' := UpdateBlogs(users, ownerId, blogId, BlogsOperation.Remove);
    assert blogId !in users'[ownerId].blogs;
  }

  /** `remove` pulls from the list of the user it is given, not from the
      blog's owner: given another user, it deletes the blog and leaves the
      real owner listing an id that names nothing. */
  lemma RemoveByOtherUserBreaksConsistency(users: map<UserId, User>, blogs: map<BlogId, Blog>, blogId: BlogId, ownerId: UserId)
    requires Consistent(users, blogs)
    requires blogId in blogs && blogs[blogId].owner != ownerId
    ensures !Consistent(UpdateBlogs(users, ownerId, blogId, BlogsOperation.Remove), blogs - {blogId})
  {
    var owner := blogs[blogId].owner;
    var users' := UpdateBlogs(users, ownerId, blogId, BlogsOperation.Remove);
    assert owner in users && blogId in users[owner].blogs;
    assert users'[owner] == users[owner];
    assert blogId !in blogs - {blogId};
  }

  /** A successful create followed by a successful remove of the same blog
      by its owner restores both tables exactly. */
  lemma CreateThenRemoveRestores(users: map<UserId, User>, blogs: map<BlogId, Blog>, input: CreateBlogInput, ownerId: UserId, newId: BlogId)
    requires Consistent(users, blogs)
    requires newId !in blogs
    ensures UpdateBlogs(UpdateBlogs(users, ownerId, newId, Add), ownerId, newId, BlogsOperation.Remove) == users
    ensures blogs[newId := NewBlog(input, ownerId)] - {newId} == blogs
  {
    if ownerId in users {
      assert newId !in users[ownerId].blogs;
      PullUndoesPush(users[ownerId].blogs, newId);
      var users' := UpdateBlogs(UpdateBlogs(users, ownerId, newId, Add), ownerId, newId, BlogsOperation.Remove);
      assert users'[ownerId] == users[ownerId];
    }
  }
}
