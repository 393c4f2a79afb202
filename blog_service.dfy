/**
 * The blog service over in-memory repositories: listing posts, optionally in
 * one status, finding one, and creating or updating a post after looking up
 * its author.
 */
module BlogService {
  import opened Wrappers
  import opened JavaLang
  import opened Entities
  import opened Dto
  import opened UserRepository
  import ContentStatus
  import Role
  import BlogMapper
  import RecipeMapper

  const UserNotFound := "User not found"
  const RoleNotAllowed := "Only users with AUTHOR, ADMIN, or MODERATOR role can create blogs"
  const BlogNotFound := "Blog not found"

  /** `blogRepo.findById(id)`. */
  function FindBlog(blogs: seq<Blog>, id: int): (b: Blog?)
    reads blogs
    ensures b != null ==> b in blogs && b.id == Some(id)
    ensures b == null ==> forall c :: c in blogs ==> c.id != Some(id)
  {
    if blogs == [] then null
    else if blogs[0].id == Some(id) then blogs[0]
    else FindBlog(blogs[1..], id)
  }

  /** The stored posts in status `s`, in store order. */
  function WithStatus(blogs: seq<Blog>, s: ContentStatus.Status): (r: seq<Blog>)
    reads blogs
    ensures forall b :: b in r ==> b in blogs && b.status == Some(s)
    ensures forall b :: b in blogs && b.status == Some(s) ==> b in r
  {
    if blogs == [] then []
    else if blogs[0].status == Some(s) then [blogs[0]] + WithStatus(blogs[1..], s)
    else WithStatus(blogs[1..], s)
  }

  /** The posts `findAllByStatus` reads: `findAll` for no status, else the status query. */
  function Listed(blogs: seq<Blog>, status: Option<ContentStatus.Status>): seq<Blog>
    reads blogs
  {
    if status.None? then blogs else WithStatus(blogs, status.value)
  }

  /** Selecting one status keeps the posts in the order they are stored. */
  lemma {:induction false} WithStatusKeepsOrder(blogs: seq<Blog>, s: ContentStatus.Status, i: nat, j: nat)
    requires i < j < |WithStatus(blogs, s)|
    ensures exists p, q :: 0 <= p < q < |blogs| && blogs[p] == WithStatus(blogs, s)[i] && blogs[q] == WithStatus(blogs, s)[j]
  {
    var r := WithStatus(blogs, s);
    if blogs[0].status == Some(s) {
      var rest := WithStatus(blogs[1..], s);
      assert r == [blogs[0]] + rest;
      if i == 0 {
        assert r[j] == rest[j - 1] && rest[j - 1] in rest;
        var q :| 0 <= q < |blogs[1..]| && blogs[1..][q] == rest[j - 1];
        assert blogs[q + 1] == r[j];
      } else {
        WithStatusKeepsOrder(blogs[1..], s, i - 1, j - 1);
        var p, q :| 0 <= p < q < |blogs[1..]| && blogs[1..][p] == rest[i - 1] && blogs[1..][q] == rest[j - 1];
        assert blogs[p + 1] == r[i] && blogs[q + 1] == r[j];
      }
    } else {
      WithStatusKeepsOrder(blogs[1..], s, i, j);
      var p, q :| 0 <= p < q < |blogs[1..]| && blogs[1..][p] == r[i] && blogs[1..][q] == r[j];
      assert blogs[p + 1] == r[i] && blogs[q + 1] == r[j];
    }
  }

  /**
   * The author lookup `create` and `update` both begin with: a missing
   * author is dereferenced, a null id is rejected by the lookup, and an
   * unknown id is "User not found".
   */
  function FindAuthor(dto: BlogDto, users: seq<User>): (r: Result<User, Exception>)
    reads users
    ensures r.Ok? <==> dto.userDto.Some? && dto.userDto.value.id.Some? && FindUser(users, dto.userDto.value.id.value) != null
    ensures r.Ok? ==> r.value == FindUser(users, dto.userDto.value.id.value)
  {
    if dto.userDto.None? then Err(NullDereference)
    else if dto.userDto.value.id.None? then Err(NullIdRejected)
    else
      var user := FindUser(users, dto.userDto.value.id.value);
      if user == null then Err(Runtime(UserNotFound)) else Ok(user)
  }

  /** The checks of `create`: the author is found, then must have a role that may publish. */
  function CheckCreate(dto: BlogDto, users: seq<User>): (r: Result<User, Exception>)
    reads users
    ensures r.Ok? <==>
      && dto.userDto.Some? && dto.userDto.value.id.Some?
      && FindUser(users, dto.userDto.value.id.value) != null
      && Role.CanCreateContent(FindUser(users, dto.userDto.value.id.value).role)
    ensures r.Ok? ==> r.value == FindUser(users, dto.userDto.value.id.value)
  {
    var author := FindAuthor(dto, users);
    if author.Err? then author
    else if !Role.CanCreateContent(author.value.role) then Err(Runtime(RoleNotAllowed))
    else author
  }

  /**
   * `create` passes its checks exactly when the author is stored and may
   * publish; a stored author with another role, or none, is refused with
   * the role message.
   */
  lemma CreateAllowedIff(dto: BlogDto, users: seq<User>)
    ensures CheckCreate(dto, users).Ok? <==>
      FindAuthor(dto, users).Ok? && Role.CanCreateContent(FindAuthor(dto, users).value.role)
    ensures CheckCreate(dto, users).Ok? ==> CheckCreate(dto, users) == FindAuthor(dto, users)
    ensures FindAuthor(dto, users).Ok? && !Role.CanCreateContent(FindAuthor(dto, users).value.role) ==>
      CheckCreate(dto, users) == Err(Runtime(RoleNotAllowed))
  {
  }

  /** The checks of `update`: the author first, then the post. */
  function CheckUpdate(id: int, dto: BlogDto, blogs: seq<Blog>, users: seq<User>): (r: Result<(User, Blog), Exception>)
    reads blogs, users
    ensures r.Ok? <==> FindAuthor(dto, users).Ok? && FindBlog(blogs, id) != null
    ensures FindAuthor(dto, users).Err? ==> r == Err(FindAuthor(dto, users).error)
    ensures FindAuthor(dto, users).Ok? && FindBlog(blogs, id) == null ==> r == Err(Runtime(BlogNotFound))
    ensures r.Ok? ==> r.value.0 == FindAuthor(dto, users).value && r.value.1 == FindBlog(blogs, id)
  {
    var author := FindAuthor(dto, users);
    if author.Err? then Err(author.error)
    else
      var blog := FindBlog(blogs, id);
      if blog == null then Err(Runtime(BlogNotFound)) else Ok((author.value, blog))
  }

  /** `blogRepo`: the stored posts, and the id its next insert assigns. */
  class BlogRepository {
    var blogs: seq<Blog>
    var nextId: int

    constructor (blogs: seq<Blog>, nextId: int)
      ensures this.blogs == blogs && this.nextId == nextId
    {
      this.blogs := blogs;
      this.nextId := nextId;
    }

    /**
     * `save(blog)`: a post without an id is inserted under the next id, its
     * `@PrePersist` hook stamping it with the clock reading `now`; one with
     * an id is written back unchanged.
     */
    method Save(blog: Blog, now: int)
      modifies this, blog
      ensures old(blog.id).None? ==>
        && blog.id == Some(old(nextId)) && blogs == old(blogs) + [blog] && nextId == old(nextId) + 1
        && blog.createdAt == Some(now) && blog.updatedAt == Some(now) && blog.status == PersistedStatus(old(blog.status))
      ensures old(blog.id).Some? ==>
        && blog.id == old(blog.id) && blogs == old(blogs) && nextId == old(nextId)
        && blog.createdAt == old(blog.createdAt) && blog.updatedAt == old(blog.updatedAt) && blog.status == old(blog.status)
      ensures blog.title == old(blog.title) && blog.description == old(blog.description) && blog.text == old(blog.text)
      ensures blog.photoUrl == old(blog.photoUrl) && blog.cookingTime == old(blog.cookingTime) && blog.user == old(blog.user)
    {
      if blog.id.None? {
        blog.OnCreate(now);
        blog.id := Some(nextId);
        nextId := nextId + 1;
        blogs := blogs + [blog];
      }
    }
  }

  /** `BlogService`: the post repository and the users it reads. */
  class BlogService {
    const users: seq<User>
    const blogRepo: BlogRepository

    constructor (users: seq<User>, blogRepo: BlogRepository)
      ensures this.users == users && this.blogRepo == blogRepo
    {
      this.users := users;
      this.blogRepo := blogRepo;
    }

    /** `findAllByStatus`, and `findAll` with no status: each listed post converted, in order. */
    method FindAllByStatus(status: Option<ContentStatus.Status>) returns (dtos: seq<BlogDto>)
      ensures var listed := Listed(blogRepo.blogs, status);
        && |dtos| == |listed|
        && forall k :: 0 <= k < |listed| ==> dtos[k] == BlogMapper.ToDto(listed[k])
      ensures status.None? ==> |dtos| == |blogRepo.blogs|
      ensures status.Some? ==> forall k :: 0 <= k < |dtos| ==> dtos[k].status == Some(ContentStatus.Name(status.value))
    {
      var listed := Listed(blogRepo.blogs, status);
      dtos := [];
      for k := 0 to |listed|
        invariant |dtos| == k
        invariant forall j :: 0 <= j < k ==> dtos[j] == BlogMapper.ToDto(listed[j])
      {
        dtos := dtos + [BlogMapper.ToDto(listed[k])];
      }
      if status.Some? {
        forall k | 0 <= k < |dtos|
          ensures dtos[k].status == Some(ContentStatus.Name(status.value))
        {
          assert listed[k] in WithStatus(blogRepo.blogs, status.value);
        }
      }
    }

    /** `findById`: the post with that id, converted, or nothing for an unknown id. */
    method FindById(id: int) returns (r: Option<BlogDto>)
      ensures r.None? <==> FindBlog(blogRepo.blogs, id) == null
      ensures r.Some? ==> r.value == BlogMapper.ToDto(FindBlog(blogRepo.blogs, id)) && r.value.id == Some(id)
    {
      var blog := FindBlog(blogRepo.blogs, id);
      if blog == null {
        return None;
      }
      return Some(BlogMapper.ToDto(blog));
    }

    /**
     * `create`: after the checks, a new post is filled from the transfer
     * object without any validation, given the author, and saved under the
     * next id, stamped with the clock reading `now`.
     */
    method Create(dto: BlogDto, now: int) returns (r: Result<BlogDto, Exception>)
      modifies blogRepo
      ensures CheckCreate(dto, users).Err? ==>
        r == Err(CheckCreate(dto, users).error)
        && blogRepo.blogs == old(blogRepo.blogs) && blogRepo.nextId == old(blogRepo.nextId)
      ensures CheckCreate(dto, users).Ok? ==>
        && |blogRepo.blogs| == |old(blogRepo.blogs)| + 1
        && blogRepo.blogs[..|old(blogRepo.blogs)|] == old(blogRepo.blogs)
        && blogRepo.nextId == old(blogRepo.nextId) + 1
        && var saved := blogRepo.blogs[|old(blogRepo.blogs)|];
        && fresh(saved) && saved.id == Some(old(blogRepo.nextId))
        && saved.user == CheckCreate(dto, users).value
        && saved.title == dto.title && saved.description == dto.description && saved.text == dto.text
        && saved.photoUrl == dto.photoUrl && saved.cookingTime == dto.cookingTime
        && saved.status == RecipeMapper.StatusAfterUpdate(dto.status, Some(ContentStatus.PENDING))
        && saved.createdAt == Some(now) && saved.updatedAt == Some(now)
        && r == Ok(BlogMapper.ToDto(saved))
    {
      var checked := CheckCreate(dto, users);
      if checked.Err? {
        return Err(checked.error);
      }
      var blog := new Blog();
      BlogMapper.UpdateEntity(blog, dto, checked.value);
      blogRepo.Save(blog, now);
      return Ok(BlogMapper.ToDto(blog));
    }

    /**
     * `update`: after the checks (author, then post), the stored post is
     * overwritten from the transfer object and written back at the clock
     * reading `now`.
     */
    method Update(id: int, dto: BlogDto, now: int) returns (r: Result<BlogDto, Exception>)
      modifies blogRepo, blogRepo.blogs
      ensures blogRepo.blogs == old(blogRepo.blogs) && blogRepo.nextId == old(blogRepo.nextId)
      ensures forall b :: b in old(blogRepo.blogs) && b != old(FindBlog(blogRepo.blogs, id)) ==> unchanged(b)
      ensures old(CheckUpdate(id, dto, blogRepo.blogs, users)).Err? ==>
        r == Err(old(CheckUpdate(id, dto, blogRepo.blogs, users)).error)
        && forall b :: b in old(blogRepo.blogs) ==> unchanged(b)
      ensures old(CheckUpdate(id, dto, blogRepo.blogs, users)).Ok? ==>
        var target := old(FindBlog(blogRepo.blogs, id));
        && target.id == Some(id) && target.createdAt == old(target.createdAt)
        && target.user == old(CheckUpdate(id, dto, blogRepo.blogs, users)).value.0
        && target.title == dto.title && target.description == dto.description && target.text == dto.text
        && target.photoUrl == dto.photoUrl && target.cookingTime == dto.cookingTime
        && target.status == RecipeMapper.StatusAfterUpdate(dto.status, old(target.status))
        && target.updatedAt == dto.updatedAt
        && r == Ok(BlogMapper.ToDto(target))
    {
      var checked := CheckUpdate(id, dto, blogRepo.blogs, users);
      if checked.Err? {
        return Err(checked.error);
      }
      var blog := checked.value.1;
      BlogMapper.UpdateEntity(blog, dto, checked.value.0);
      blogRepo.Save(blog, now);
      return Ok(BlogMapper.ToDto(blog));
    }
  }
}
