/** The announcements board (src/Posts.jsx): posts by managers, each with an
    append-only list of replies, joined with their authors' profiles, and
    shown with a relative age. */
module Posts {
  import opened Wrappers
  import opened Text
  import opened Lists
  import opened Roles

  // =====================================================================
  // Data
  // =====================================================================

  /** One element of a post's `replies` array. */
  datatype Reply = Reply(content: string, userId: string, userName: string, createdAt: string)

  /** A `communications` row as fetched; `replies` may be null. */
  datatype PostRow = PostRow(id: string, userId: string, title: string, description: string, replies: Option<seq<Reply>>)

  /** A `profiles` row as selected: `id, first_name, last_name, role`. */
  datatype AuthorRow = AuthorRow(id: string, firstName: string, lastName: string, role: Option<Role>)

  /** A post as shown, with its replies defaulted and its author attached. */
  datatype Post = Post(row: PostRow, replies: seq<Reply>, author: Option<AuthorRow>)

  /** `canCreatePost` and `canManagePosts`, which are the same test: the
      "New Post" button and each post's edit and delete buttons are shown
      to admins and leaders, and to no one without a loaded profile. */
  predicate CanManagePosts(role: Option<Role>): (b: bool)
    ensures b <==> role.Some? && !role.value.Member?
  {
    IsManager(role)
  }

  // =====================================================================
  // fetchPosts
  // =====================================================================

  /** `[...new Set(postsData.map(post => post.user_id))]`: the authors
      to ask for, each once (see `KeysOnce`). */
  function AuthorIds(rows: seq<PostRow>): seq<string> {
    KeysOnce(rows, (row: PostRow) => row.userId)
  }

  function AuthorId(a: AuthorRow): string {
    a.id
  }

  /** `processedData`: every post is kept, in order, with `replies ?? []` and
      the author found by id (none when the profile is missing; the last
      profile listed with that id when several are). */
  function Processed(rows: seq<PostRow>, authors: seq<AuthorRow>): (r: seq<Post>)
    ensures |r| == |rows|
    ensures forall i :: 0 <= i < |rows| ==> r[i].row == rows[i] && r[i].replies == rows[i].replies.GetOr([])
    ensures forall i :: 0 <= i < |rows| ==>
              (r[i].author.Some? <==> exists j :: 0 <= j < |authors| && authors[j].id == rows[i].userId)
    ensures forall i :: 0 <= i < |rows| && r[i].author.Some? ==> r[i].author.value.id == rows[i].userId
    ensures forall i, j ::
              (0 <= i < |rows| && 0 <= j < |authors| && authors[j].id == rows[i].userId
               && forall k :: j < k < |authors| ==> authors[k].id != rows[i].userId)
              ==> r[i].author == Some(authors[j])
  {
    var m := IndexBy(authors, AuthorId);
    forall i | 0 <= i < |rows| ensures rows[i].userId in m <==> exists j :: 0 <= j < |authors| && authors[j].id == rows[i].userId {
      IndexByKeys(authors, AuthorId, rows[i].userId);
    }
    forall k | k in m ensures m[k].id == k {
      IndexByEntryKey(authors, k);
    }
    forall i, j | 0 <= i < |rows| && 0 <= j < |authors| && authors[j].id == rows[i].userId
        && (forall k :: j < k < |authors| ==> authors[k].id != rows[i].userId)
      ensures rows[i].userId in m && m[rows[i].userId] == authors[j]
    {
      IndexByLast(authors, AuthorId, j);
    }
    seq(|rows|, i requires 0 <= i < |rows| =>
      Post(rows[i], rows[i].replies.GetOr([]), if rows[i].userId in m then Some(m[rows[i].userId]) else None))
  }

  lemma {:induction false} IndexByEntryKey(authors: seq<AuthorRow>, k: string)
    requires k in IndexBy(authors, AuthorId)
    ensures IndexBy(authors, AuthorId)[k].id == k
    decreases |authors|
  {
    var init := authors[..|authors| - 1];
    if AuthorId(authors[|authors| - 1]) != k {
      IndexByEntryKey(init, k);
    }
  }

  // =====================================================================
  // Creating and editing posts
  // =====================================================================

  /** A post's text as sent: title and description, both trimmed. */
  datatype PostText = PostText(title: string, description: string)

  const MissingFields := "Please fill in both title and description"

  /** The check of `handleCreatePost` and `handleUpdatePost`: both fields
      must be non-empty after trimming, and the trimmed values are sent. */
  function ValidatePost(title: string, description: string): (r: Result<PostText, string>)
    ensures r.Err? <==> Trim(title) == [] || Trim(description) == []
    ensures r.Err? ==> r.error == MissingFields
    ensures r.Ok? ==> r.value == PostText(Trim(title), Trim(description))
  {
    if Trim(title) == [] || Trim(description) == [] then Err(MissingFields)
    else Ok(PostText(Trim(title), Trim(description)))
  }

  /** A title or description made only of white space is refused. */
  lemma BlankIsRefused(title: string, description: string)
    requires forall i :: 0 <= i < |title| ==> IsSpace(title[i])
    ensures ValidatePost(title, description).Err?
  {
    TrimEmptyIff(title);
  }

  /** What was stored passes the check again and is stored unchanged: opening
      a post for editing and saving it without changes sends the same text. */
  lemma StoredTextIsStable(title: string, description: string)
    requires ValidatePost(title, description).Ok?
    ensures ValidatePost(ValidatePost(title, description).value.title, ValidatePost(title, description).value.description)
         == ValidatePost(title, description)
  {
    TrimIdempotent(title);
    TrimIdempotent(description);
  }

  /** The row `handleCreatePost` inserts. */
  datatype NewPostRow = NewPostRow(userId: string, text: PostText, replies: seq<Reply>)

  /** The update `handleUpdatePost` sends: the trimmed text for the row `id`. */
  datatype PostUpdate = PostUpdate(id: string, text: PostText)

  /** `handleCreatePost`: a valid form inserts a post with no replies. */
  function CreatePost(title: string, description: string, userId: string): (r: Result<NewPostRow, string>)
    ensures r.Ok? <==> ValidatePost(title, description).Ok?
    ensures r.Ok? ==> r.value.replies == [] && r.value.userId == userId
                      && r.value.text == ValidatePost(title, description).value
  {
    match ValidatePost(title, description)
    case Ok(text) => Ok(NewPostRow(userId, text, []))
    case Err(e) => Err(e)
  }

  // =====================================================================
  // Replies
  // =====================================================================

  const EmptyReply := "Reply cannot be empty"

  /** The profile of the member replying. */
  datatype Replier = Replier(id: string, firstName: string, lastName: string)

  /** `handleCreateReply(post)`: the draft for the post, trimmed, must be
      non-empty; the new list is the old one with the reply appended. `now`
      stands for `new Date().toISOString()`. */
  function ReplyUpdate(post: Post, draft: Option<string>, replier: Replier, now: string): (r: Result<seq<Reply>, string>)
    ensures r.Err? <==> draft.None? || Trim(draft.value) == []
    ensures r.Err? ==> r.error == EmptyReply
    ensures r.Ok? ==> |r.value| == |post.replies| + 1 && r.value[..|post.replies|] == post.replies
    ensures r.Ok? ==> var added := r.value[|post.replies|];
              added.content == Trim(draft.value) && added.content != []
              && added.userId == replier.id && added.createdAt == now
              && added.userName == replier.firstName + " " + replier.lastName
  {
    if draft.None? || Trim(draft.value) == [] then Err(EmptyReply)
    else
      var reply := Reply(Trim(draft.value), replier.id, replier.firstName + " " + replier.lastName, now);
      var r := post.replies + [reply];
      assert r[..|post.replies|] == post.replies;
      Ok(r)
  }

  /** Replies are only ever added: after any run of successful replies the
      original replies are still the first ones, in the same order. */
  lemma {:induction false} RepliesOnlyGrow(post: Post, drafts: seq<string>, replier: Replier, now: string)
    requires forall i :: 0 <= i < |drafts| ==> Trim(drafts[i]) != []
    ensures var p := AfterReplies(post, drafts, replier, now);
      |p.replies| == |post.replies| + |drafts| && p.replies[..|post.replies|] == post.replies
    decreases |drafts|
  {
    if drafts != [] {
      var init := drafts[..|drafts| - 1];
      RepliesOnlyGrow(post, init, replier, now);
      var p := AfterReplies(post, init, replier, now);
      var q := AfterReplies(post, drafts, replier, now);
      assert q.replies[..|p.replies|] == p.replies;
      assert q.replies[..|post.replies|] == p.replies[..|post.replies|];
    }
  }

  /** The post after the replies `drafts`, one after the other. */
  function AfterReplies(post: Post, drafts: seq<string>, replier: Replier, now: string): Post
    requires forall i :: 0 <= i < |drafts| ==> Trim(drafts[i]) != []
    decreases |drafts|
  {
    if drafts == [] then post
    else
      var p := AfterReplies(post, drafts[..|drafts| - 1], replier, now);
      p.(replies := ReplyUpdate(p, Some(drafts[|drafts| - 1]), replier, now).value)
  }

  // =====================================================================
  // formatDate
  // =====================================================================

  const MinuteMs := 60000
  const HourMs := 3600000
  const DayMs := 86400000

  /** `formatDate(dateString)` for a post `diffMs` milliseconds old. The
      quotients are `Math.floor`s, which for a positive divisor is the
      division used here; `fullDate` stands for `toLocaleDateString()`. */
  function FormatDate(diffMs: int, fullDate: string): (r: string)
    ensures diffMs < MinuteMs ==> r == "Just now"
    ensures MinuteMs <= diffMs < HourMs ==>
              exists n :: 1 <= n < 60 && n * MinuteMs <= diffMs < (n + 1) * MinuteMs && r == NatToString(n) + "m ago"
    ensures HourMs <= diffMs < DayMs ==>
              exists n :: 1 <= n < 24 && n * HourMs <= diffMs < (n + 1) * HourMs && r == NatToString(n) + "h ago"
    ensures DayMs <= diffMs < 7 * DayMs ==>
              exists n :: 1 <= n < 7 && n * DayMs <= diffMs < (n + 1) * DayMs && r == NatToString(n) + "d ago"
    ensures 7 * DayMs <= diffMs ==> r == fullDate
  {
    var mins, hours, days := diffMs / MinuteMs, diffMs / HourMs, diffMs / DayMs;
    if mins < 1 then "Just now"
    else if mins < 60 then NatToString(mins) + "m ago"
    else if hours < 24 then NatToString(hours) + "h ago"
    else if days < 7 then NatToString(days) + "d ago"
    else fullDate
  }

  // =====================================================================
  // The page state
  // =====================================================================

  /** `handleTogglePost(postId)`: at most one post is open; the open one
      closes, any other opens. */
  function TogglePost(expanded: Option<string>, postId: string): (r: Option<string>)
    ensures r.None? <==> expanded == Some(postId)
    ensures r.Some? ==> r.value == postId
  {
    if expanded == Some(postId) then None else Some(postId)
  }

  class PostsPage {
    var posts: seq<Post>
    var expandedPost: Option<string>
    var newReply: map<string, string>
    var editingPost: Option<string>
    var editData: PostText
    var newPost: PostText
    var showNewPost: bool

    /** The page as first rendered: nothing fetched, open or being edited. */
    constructor ()
      ensures posts == [] && expandedPost.None? && newReply == map[] && editingPost.None?
      ensures editData == PostText("", "") && newPost == PostText("", "") && !showNewPost
    {
      posts, expandedPost, newReply, editingPost := [], None, map[], None;
      editData, newPost, showNewPost := PostText("", ""), PostText("", ""), false;
    }

    /** The "New Post" button, shown only to those who may post: shows or
        hides the form. */
    method ToggleNewPost(role: Option<Role>)
      modifies this
      ensures showNewPost == (old(showNewPost) != CanManagePosts(role)) && newPost == old(newPost)
      ensures posts == old(posts) && expandedPost == old(expandedPost) && newReply == old(newReply)
      ensures editingPost == old(editingPost) && editData == old(editData)
    {
      if CanManagePosts(role) {
        showNewPost := !showNewPost;
      }
    }

    /** `handleCreatePost` up to the request: the row to insert, and after a
        successful insert the form is emptied and hidden. */
    method CreateNewPost(userId: string, succeeded: bool) returns (request: Result<NewPostRow, string>)
      modifies this
      ensures request == CreatePost(old(newPost).title, old(newPost).description, userId)
      ensures request.Ok? && succeeded ==> newPost == PostText("", "") && !showNewPost
      ensures !(request.Ok? && succeeded) ==> newPost == old(newPost) && showNewPost == old(showNewPost)
      ensures posts == old(posts) && expandedPost == old(expandedPost) && newReply == old(newReply)
      ensures editingPost == old(editingPost) && editData == old(editData)
    {
      request := CreatePost(newPost.title, newPost.description, userId);
      if request.Ok? && succeeded {
        newPost, showNewPost := PostText("", ""), false;
      }
    }

    /** `fetchPosts()` once the two queries have answered: a failed posts
        query keeps the list; a failed profiles query attaches no authors. */
    method Fetched(rows: Result<seq<PostRow>, string>, authors: Option<seq<AuthorRow>>)
      modifies this
      ensures rows.Err? ==> posts == old(posts)
      ensures rows.Ok? ==> posts == Processed(rows.value, authors.GetOr([]))
      ensures expandedPost == old(expandedPost) && newReply == old(newReply) && editingPost == old(editingPost)
      ensures editData == old(editData)
      ensures newPost == old(newPost) && showNewPost == old(showNewPost)
    {
      if rows.Ok? {
        posts := Processed(rows.value, authors.GetOr([]));
      }
    }

    /** `startEditingPost(post)`, behind the edit button that only those
        who may manage posts see. */
    method StartEditing(post: Post, role: Option<Role>)
      modifies this
      ensures CanManagePosts(role) ==>
                editingPost == Some(post.row.id) && editData == PostText(post.row.title, post.row.description)
      ensures !CanManagePosts(role) ==> editingPost == old(editingPost) && editData == old(editData)
      ensures posts == old(posts) && expandedPost == old(expandedPost) && newReply == old(newReply)
      ensures newPost == old(newPost) && showNewPost == old(showNewPost)
    {
      if CanManagePosts(role) {
        editingPost := Some(post.row.id);
        editData := PostText(post.row.title, post.row.description);
      }
    }

    /** `cancelEditing()` */
    method CancelEditing()
      modifies this
      ensures editingPost.None? && editData == PostText("", "")
      ensures posts == old(posts) && expandedPost == old(expandedPost) && newReply == old(newReply)
      ensures newPost == old(newPost) && showNewPost == old(showNewPost)
    {
      editingPost := None;
      editData := PostText("", "");
    }

    /** `handleUpdatePost(postId)` up to the request: the text to send to
        the row `postId`, and after a successful update the editor closes. */
    method UpdatePost(postId: string, succeeded: bool) returns (request: Result<PostUpdate, string>)
      modifies this
      ensures var v := ValidatePost(old(editData).title, old(editData).description);
                (request.Ok? <==> v.Ok?)
                && (request.Ok? ==> request.value == PostUpdate(postId, v.value))
                && (request.Err? ==> request.error == v.error)
      ensures request.Ok? && succeeded ==> editingPost == None && editData == PostText("", "")
      ensures !(request.Ok? && succeeded) ==> editingPost == old(editingPost) && editData == old(editData)
      ensures posts == old(posts) && expandedPost == old(expandedPost) && newReply == old(newReply)
      ensures newPost == old(newPost) && showNewPost == old(showNewPost)
    {
      request := match ValidatePost(editData.title, editData.description)
        case Ok(text) => Ok(PostUpdate(postId, text))
        case Err(e) => Err(e);
      if request.Ok? && succeeded {
        editingPost, editData := None, PostText("", "");
      }
    }

    /** `handleTogglePost(postId)` */
    method Toggle(postId: string)
      modifies this
      ensures expandedPost == TogglePost(old(expandedPost), postId)
      ensures posts == old(posts) && newReply == old(newReply) && editingPost == old(editingPost)
      ensures editData == old(editData)
      ensures newPost == old(newPost) && showNewPost == old(showNewPost)
    {
      expandedPost := TogglePost(expandedPost, postId);
    }

    /** `handleCreateReply(post)` up to the request: the new reply list, and
        after a successful update the post's draft is emptied. */
    method CreateReply(post: Post, replier: Replier, now: string, succeeded: bool) returns (request: Result<seq<Reply>, string>)
      modifies this
      ensures request == ReplyUpdate(post, if post.row.id in old(newReply) then Some(old(newReply)[post.row.id]) else None, replier, now)
      ensures request.Ok? && succeeded ==> newReply == old(newReply)[post.row.id := ""]
      ensures !(request.Ok? && succeeded) ==> newReply == old(newReply)
      ensures posts == old(posts) && expandedPost == old(expandedPost) && editingPost == old(editingPost)
      ensures editData == old(editData)
      ensures newPost == old(newPost) && showNewPost == old(showNewPost)
    {
      var draft := if post.row.id in newReply then Some(newReply[post.row.id]) else None;
      request := ReplyUpdate(post, draft, replier, now);
      if request.Ok? && succeeded {
        newReply := newReply[post.row.id := ""];
      }
    }
  }
}
