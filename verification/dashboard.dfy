/** The post feed: who may create posts, which posts a viewer sees, and the
    state change when a new post is submitted. */
module Dashboard {
  import opened Wrappers
  import opened Types
  import Seqs
  import Auth

  /** The new-post form: its text and its target. */
  datatype PostForm = PostForm(content: string, department: PostTarget)

  /** The page state: the loaded posts, newest first, and the form. */
  datatype DashboardState = DashboardState(posts: seq<Post>, form: PostForm)

  /** A toast shown after a submission. */
  datatype Notice = Succeeded(description: string) | Failed(description: string)

  /** The page after a submission, the body sent to the server (if a
      request was made) and the toast shown (if any). */
  datatype CreateStep = CreateStep(state: DashboardState, sent: Option<PostForm>, notice: Option<Notice>)

  /** The form as first shown and as reset after a successful post. */
  const EmptyForm := PostForm("", All)

  /** The role names allowed to create posts. */
  const CreatorRoles := ["Admin", "Manager"]

  /** A user is present and the name of their role is one of the creator roles. */
  function CanCreatePost(user: Option<User>): (ok: bool)
    ensures ok <==> user.Some? && (user.value.role == Admin || user.value.role == Manager)
  {
    user.Some? && RoleName(user.value.role) in CreatorRoles
  }

  /** `user?.role`: the viewer's role, undefined when nobody is logged in. */
  function ViewerRole(user: Option<User>): Option<Role>
  {
    if user.Some? then Some(user.value.role) else None
  }

  /** `user?.department`: undefined when nobody is logged in or the user has none. */
  function ViewerDepartment(user: Option<User>): Option<Department>
  {
    if user.Some? then user.value.department else None
  }

  /** `post.department === user?.department`. A post's department is never
      undefined, so the comparison fails whenever the right side is. */
  predicate SameDepartment(target: PostTarget, viewer: Option<Department>)
  {
    target.Dept? && viewer == Some(target.department)
  }

  /** The per-post test of the feed filter. */
  function IsPostVisible(post: Post, user: Option<User>): (b: bool)
    ensures user.Some? && (user.value.role == Admin || user.value.role == Manager) ==> b
    ensures user.Some? && user.value.role == Role.User ==>
              (b <==> post.department == All || (user.value.department.Some? && post.department == Dept(user.value.department.value)))
    ensures user.None? ==> (b <==> post.department == All)
  {
    if ViewerRole(user) == Some(Admin) || ViewerRole(user) == Some(Manager) then true
    else post.department == All || SameDepartment(post.department, ViewerDepartment(user))
  }

  /** `IsPostVisible` for a fixed viewer, as a filter argument. */
  function VisibleTo(user: Option<User>): Post -> bool
  {
    (post: Post) => IsPostVisible(post, user)
  }

  /** The posts shown to `user`, in feed order. */
  function VisiblePosts(posts: seq<Post>, user: Option<User>): (r: seq<Post>)
    ensures Seqs.IsSubsequence(r, posts)
    ensures forall p :: p in r <==> p in posts && IsPostVisible(p, user)
    ensures forall p :: multiset(r)[p] == if IsPostVisible(p, user) then multiset(posts)[p] else 0
  {
    Seqs.FilterCount(posts, VisibleTo(user));
    Seqs.Filter(posts, VisibleTo(user))
  }

  /** Administrators and managers see the whole feed. */
  lemma PrivilegedSeeEverything(posts: seq<Post>, u: User)
    requires u.role == Admin || u.role == Manager
    ensures VisiblePosts(posts, Some(u)) == posts
  {
    Seqs.FilterKeepsAll(posts, VisibleTo(Some(u)));
  }

  /** A plain user sees exactly the posts for everyone and those for their own department. */
  lemma UserSeesAllAndOwnDepartment(posts: seq<Post>, u: User, p: Post)
    requires u.role == Role.User
    ensures p in VisiblePosts(posts, Some(u)) <==>
              p in posts && (p.department == All || (u.department.Some? && p.department == Dept(u.department.value)))
  {
  }

  /** With nobody logged in the feed still shows exactly the posts for everyone. */
  lemma AnonymousSeesOnlyAll(posts: seq<Post>, p: Post)
    ensures p in VisiblePosts(posts, None) <==> p in posts && p.department == All
  {
  }

  /** Submits the form. Without the right to create posts nothing happens;
      otherwise the form is sent, and `response` is the created post the
      server returns, or `None` for a non-OK response or a failed request. */
  function HandleCreatePost(s: DashboardState, user: Option<User>, response: Option<Post>): (r: CreateStep)
    ensures !CanCreatePost(user) ==> r == CreateStep(s, None, None)
    ensures CanCreatePost(user) ==> r.sent == Some(s.form)
    ensures CanCreatePost(user) && response.Some? ==>
              && r.state.posts == [response.value] + s.posts
              && r.state.form == EmptyForm
              && r.notice.Some? && r.notice.value.Succeeded?
    ensures CanCreatePost(user) && response.None? ==>
              r.state == s && r.notice == Some(Failed("Failed to create post"))
  {
    if !CanCreatePost(user) then CreateStep(s, None, None)
    else match response
      case Some(post) =>
        CreateStep(DashboardState([post] + s.posts, EmptyForm), Some(s.form), Some(Succeeded("Post created successfully")))
      case None =>
        CreateStep(s, Some(s.form), Some(Failed("Failed to create post")))
  }

  /** After a successful submission every viewer's feed is what it was, with
      the new post in front exactly when that viewer may see it. */
  lemma CreatedPostReachesViewers(s: DashboardState, author: Option<User>, post: Post, viewer: Option<User>)
    requires CanCreatePost(author)
    ensures var t := HandleCreatePost(s, author, Some(post)).state;
            VisiblePosts(t.posts, viewer)
              == (if IsPostVisible(post, viewer) then [post] else []) + VisiblePosts(s.posts, viewer)
  {
    Seqs.FilterCons(post, s.posts, VisibleTo(viewer));
  }

  /** After logging out, the feed falls back to the posts for everyone. */
  lemma FeedAfterLogout(s: Auth.AuthState, posts: seq<Post>)
    ensures VisiblePosts(posts, Auth.Logout(s).user) == Seqs.Filter(posts, (p: Post) => p.department == All)
  {
    Seqs.FilterSamePredicate(posts, VisibleTo(None), (p: Post) => p.department == All);
  }
}
