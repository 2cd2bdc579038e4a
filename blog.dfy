/**
 * The effect of the request handlers of server.js on the `users`, `posts`
 * and `comments` tables, held in memory by the class `Store`: one map per
 * table from row id to row, and per table the next AUTOINCREMENT id.
 *
 * What the program gets from libraries enters as parameters: the sanitizer
 * (`sanitize`), bcrypt's hash and compare (`hash`, `matches`, and the
 * random `salt`), the clock (`now`), and the identity the JWT middleware
 * decoded from the cookie (`caller`: `None` where the middleware sets
 * `req.user = false`, server.js:82-87).
 */
module Blog {
  import opened Wrappers
  import opened JsText
  import opened Validation

  /** A bcrypt hash string, the `password` column. */
  type Hash = JsString
  type Salt = JsString
  /** An ISO-8601 timestamp string, the `createdDate` column. */
  type Timestamp = JsString

  /** The payload of the session token: `{userid, username}`. */
  datatype Identity = Identity(userId: int, username: JsString)

  datatype User = User(username: JsString, password: Hash)
  datatype Post = Post(createdDate: Timestamp, title: JsString, content: JsString, authorId: int)
  datatype Comment = Comment(authorId: int, postId: int, content: JsString)

  datatype RegisterOutcome =
    | RegisterRejected(errors: seq<Message>)   // home page re-rendered with the errors
    | Registered(session: Identity)           // cookie set with this identity, redirect home

  datatype LoginOutcome =
    | LoginRejected(errors: seq<Message>)      // login page re-rendered with the errors
    | LoggedIn(session: Identity)             // cookie set with this identity, redirect home

  /** Why a guarded handler redirected home without doing anything. */
  datatype Denial = NotLoggedIn | NoSuchPost | NotAuthor

  datatype Outcome =
    | Denied(reason: Denial)                  // redirect home
    | Invalid(errors: seq<Message>)            // form re-rendered (comments: redirect to the post)
    | Failed                                  // the storage call raised; no row was written
    | Done(id: int)                           // the id of the row created, changed or deleted

  /** The data the single-post page is rendered with. */
  datatype PostView = PostView(post: Post, isAuthor: bool, commentIds: set<int>)

  /** The ownership test `post.authorid === req.user.userid`: for an
      anonymous caller `req.user` is `false`, whose `userid` is `undefined`,
      so the test is false rather than a fault. */
  predicate IsAuthor(post: Post, caller: Option<Identity>) {
    caller.Some? && post.authorId == caller.value.userId
  }

  /** The `UNIQUE` constraint of the `username` column. */
  ghost predicate UniqueUsernames(users: map<int, User>) {
    forall i, j :: i in users && j in users && users[i].username == users[j].username ==> i == j
  }

  /** The three gates in front of an edit or a delete, in the order they
      run: `mustBeLoggedIn` (server.js:231-239), the post lookup and the
      ownership test (server.js:156-167 and 185-196). `None` lets the
      handler go on. */
  function GuardPost(caller: Option<Identity>, posts: map<int, Post>, id: int): (denial: Option<Denial>)
    ensures denial.None? <==> caller.Some? && id in posts && posts[id].authorId == caller.value.userId
    ensures caller.None? ==> denial == Some(NotLoggedIn)
    ensures caller.Some? && id !in posts ==> denial == Some(NoSuchPost)
    ensures caller.Some? && id in posts && posts[id].authorId != caller.value.userId ==> denial == Some(NotAuthor)
  {
    if caller.None? then Some(NotLoggedIn)
    else if id !in posts then Some(NoSuchPost)
    else if !IsAuthor(posts[id], caller) then Some(NotAuthor)
    else None
  }

  /** `SELECT * FROM users WHERE username = ?` finds a row. */
  predicate NameInUse(users: map<int, User>, name: JsString) {
    exists id :: id in users && users[id].username == name
  }

  /** Some comment row has `postid` equal to `id`. */
  predicate HasComments(comments: map<int, Comment>, id: int) {
    exists c :: c in comments && comments[c].postId == id
  }

  /** The comment rows that are not on post `id`. */
  function CommentsNotOn(comments: map<int, Comment>, id: int): (r: map<int, Comment>)
    ensures !HasComments(r, id)
    ensures forall c :: c in r <==> c in comments && comments[c].postId != id
    ensures forall c :: c in r ==> r[c] == comments[c]
  {
    map c | c in comments && comments[c].postId != id :: comments[c]
  }

  class Store {
    var users: map<int, User>
    var posts: map<int, Post>
    var comments: map<int, Comment>
    var nextUserId: int
    var nextPostId: int
    var nextCommentId: int

    /** Ids are positive and below the next id to hand out; usernames are
        unique and obey the registration rules; posts and comments carry
        non-empty text, as their handlers check before inserting; and every
        `REFERENCES` clause of the schema (server.js:31, 55-56) holds, as the
        storage engine enforces foreign keys. */
    ghost predicate Valid()
      reads this
    {
      1 <= nextUserId && 1 <= nextPostId && 1 <= nextCommentId
      && (forall id :: id in users ==> 1 <= id < nextUserId)
      && (forall id :: id in posts ==> 1 <= id < nextPostId)
      && (forall id :: id in comments ==> 1 <= id < nextCommentId)
      && UniqueUsernames(users)
      && (forall id :: id in users ==> ValidUsername(users[id].username))
      && (forall id :: id in posts ==> posts[id].title != [] && posts[id].content != [])
      && (forall id :: id in comments ==> comments[id].content != [])
      && (forall id :: id in posts ==> posts[id].authorId in users)
      && (forall id :: id in comments ==> comments[id].authorId in users && comments[id].postId in posts)
    }

    /** Freshly created tables. */
    constructor ()
      ensures Valid()
      ensures users == map[] && posts == map[] && comments == map[]
      ensures nextUserId == 1 && nextPostId == 1 && nextCommentId == 1
    {
      users, posts, comments := map[], map[], map[];
      nextUserId, nextPostId, nextCommentId := 1, 1, 1;
    }

    /** POST /register (server.js:357-411). The username is trimmed, the
        password is not; the name lookup runs whatever the other checks
        said. With no errors the user is inserted with the hashed password
        and the session names the new row. */
    method Register(username: FormValue, password: FormValue, salt: Salt, hash: (JsString, Salt) -> Hash)
      returns (r: RegisterOutcome)
      requires Valid()
      modifies this
      ensures Valid()
      ensures var name := Trim(AsText(username));
              var errs := RegisterErrors(name, AsText(password), NameInUse(old(users), name));
              if errs != [] then
                r == RegisterRejected(errs) && unchanged(this)
              else
                && r == Registered(Identity(old(nextUserId), name))
                && old(nextUserId) !in old(users)
                && users == old(users)[old(nextUserId) := User(name, hash(AsText(password), salt))]
                && nextUserId == old(nextUserId) + 1
                && posts == old(posts) && comments == old(comments)
                && nextPostId == old(nextPostId) && nextCommentId == old(nextCommentId)
    {
      var name := Trim(AsText(username));
      var pw := AsText(password);
      var taken := NameInUse(users, name);
      var errors := RegisterErrors(name, pw, taken);
      if errors != [] {
        return RegisterRejected(errors);
      }
      var id := nextUserId;
      users := users[id := User(name, hash(pw, salt))];
      nextUserId := nextUserId + 1;
      r := Registered(Identity(id, name));
    }

    /** POST /login (server.js:311-354). Every way of failing gives the same
        single message and no session; success needs the trimmed name to
        belong to a user whose stored hash accepts the password. */
    method Login(username: FormValue, password: FormValue, matches: (JsString, Hash) -> bool)
      returns (r: LoginOutcome)
      requires Valid()
      ensures r.LoginRejected? ==> r.errors == [InvalidLogin]
      ensures r.LoggedIn? <==>
                && Trim(AsText(username)) != [] && AsText(password) != []
                && exists id :: id in users && users[id].username == Trim(AsText(username))
                                && matches(AsText(password), users[id].password)
      ensures r.LoggedIn? ==>
                && r.session.userId in users
                && users[r.session.userId].username == r.session.username == Trim(AsText(username))
                && matches(AsText(password), users[r.session.userId].password)
    {
      var name := Trim(AsText(username));
      var pw := AsText(password);
      var errors := LoginInputErrors(name, pw);
      if errors != [] {
        return LoginRejected(errors);
      }
      if id :| id in users && users[id].username == name {
        if !matches(pw, users[id].password) {
          return LoginRejected([InvalidLogin]);
        }
        return LoggedIn(Identity(id, users[id].username));
      }
      return LoginRejected([InvalidLogin]);
    }

    /** POST /create-post (server.js:262-277), behind `mustBeLoggedIn`.
        A valid post is inserted under a fresh id with the caller as author
        and the normalised title and body; the insert raises when the caller's
        id names no user row, as `authorid` references `users`. */
    method CreatePost(caller: Option<Identity>, title: FormValue, body: FormValue,
                      sanitize: JsString -> JsString, now: Timestamp)
      returns (r: Outcome)
      requires Valid()
      modifies this
      ensures Valid()
      ensures caller.None? ==> r == Denied(NotLoggedIn) && unchanged(this)
      ensures caller.Some? ==>
                var v := ValidatePost(title, body, sanitize);
                if v.errors != [] then
                  r == Invalid(v.errors) && unchanged(this)
                else if caller.value.userId !in old(users) then
                  r == Failed && unchanged(this)
                else
                  && r == Done(old(nextPostId))
                  && r.id !in old(posts)
                  && posts == old(posts)[r.id := Post(now, v.title, v.body, caller.value.userId)]
                  && nextPostId == old(nextPostId) + 1
                  && users == old(users) && comments == old(comments)
                  && nextUserId == old(nextUserId) && nextCommentId == old(nextCommentId)
    {
      if caller.None? {
        return Denied(NotLoggedIn);
      }
      var v := ValidatePost(title, body, sanitize);
      if v.errors != [] {
        return Invalid(v.errors);
      }
      if caller.value.userId !in users {
        return Failed;
      }
      assert v.title != [] && v.body != [];
      var id := nextPostId;
      posts := posts[id := Post(now, v.title, v.body, caller.value.userId)];
      nextPostId := nextPostId + 1;
      r := Done(id);
    }

    /** POST /edit-post/:id (server.js:155-182), behind `mustBeLoggedIn`.
        Only the author of an existing post can change it, and only its
        title and content change. */
    method EditPost(caller: Option<Identity>, id: int, title: FormValue, body: FormValue,
                    sanitize: JsString -> JsString)
      returns (r: Outcome)
      requires Valid()
      modifies this
      ensures Valid()
      ensures GuardPost(caller, old(posts), id).Some? ==>
                r == Denied(GuardPost(caller, old(posts), id).value) && unchanged(this)
      ensures GuardPost(caller, old(posts), id).None? ==>
                var v := ValidatePost(title, body, sanitize);
                if v.errors != [] then
                  r == Invalid(v.errors) && unchanged(this)
                else
                  && r == Done(id)
                  && posts == old(posts)[id := old(posts)[id].(title := v.title, content := v.body)]
                  && users == old(users) && comments == old(comments)
                  && nextUserId == old(nextUserId) && nextPostId == old(nextPostId)
                  && nextCommentId == old(nextCommentId)
    {
      var denial := GuardPost(caller, posts, id);
      if denial.Some? {
        r := Denied(denial.value);
      } else {
        var v := ValidatePost(title, body, sanitize);
        if v.errors != [] {
          r := Invalid(v.errors);
        } else {
          assert v.title != [] && v.body != [];
          posts := posts[id := posts[id].(title := v.title, content := v.body)];
          r := Done(id);
        }
      }
    }

    /** POST /delete-post/:id (server.js:184-204), behind `mustBeLoggedIn`.
        Only the author of an existing post can delete it, and nothing but
        that row goes. The `postid` of the comments references `posts` with
        no `ON DELETE` action, so the delete raises, and the post stays, as
        soon as a comment is on it. */
    method DeletePost(caller: Option<Identity>, id: int) returns (r: Outcome)
      requires Valid()
      modifies this
      ensures Valid()
      ensures GuardPost(caller, old(posts), id).Some? ==>
                r == Denied(GuardPost(caller, old(posts), id).value) && unchanged(this)
      ensures GuardPost(caller, old(posts), id).None? ==>
                if HasComments(old(comments), id) then
                  r == Failed && unchanged(this)
                else
                  && r == Done(id)
                  && posts == old(posts) - {id}
                  && users == old(users) && comments == old(comments)
                  && nextUserId == old(nextUserId) && nextPostId == old(nextPostId)
                  && nextCommentId == old(nextCommentId)
    {
      var denial := GuardPost(caller, posts, id);
      if denial.Some? {
        return Denied(denial.value);
      }
      if HasComments(comments, id) {
        return Failed;
      }
      posts := posts - {id};
      r := Done(id);
    }

    /** The delete the handler evidently means: the post goes together with
        the comments on it, so that no comment is left pointing at a missing
        post and the author is never refused. */
    method DeletePostAndComments(caller: Option<Identity>, id: int) returns (r: Outcome)
      requires Valid()
      modifies this
      ensures Valid()
      ensures GuardPost(caller, old(posts), id).Some? ==>
                r == Denied(GuardPost(caller, old(posts), id).value) && unchanged(this)
      ensures GuardPost(caller, old(posts), id).None? ==>
                && r == Done(id)
                && posts == old(posts) - {id}
                && comments == CommentsNotOn(old(comments), id)
                && users == old(users)
                && nextUserId == old(nextUserId) && nextPostId == old(nextPostId)
                && nextCommentId == old(nextCommentId)
    {
      var denial := GuardPost(caller, posts, id);
      if denial.Some? {
        return Denied(denial.value);
      }
      comments := CommentsNotOn(comments, id);
      posts := posts - {id};
      r := Done(id);
    }

    /** POST /add-comment (server.js:280-307), behind `mustBeLoggedIn`.
        The raw `body` field is stored unsanitised under the caller; the
        handler sanitises the form's `title` field, which it then never uses.
        An array body passes the truthiness check, but the statement binds
        each of its two or more items as a parameter of its own, which gives
        more values than its three parameters, so the insert raises. The insert also raises when
        `postid` names no post or the caller's id no user, as both columns
        reference those tables. */
    method AddComment(caller: Option<Identity>, postId: int, body: FormValue) returns (r: Outcome)
      requires Valid()
      modifies this
      ensures Valid()
      ensures caller.None? ==> r == Denied(NotLoggedIn) && unchanged(this)
      ensures caller.Some? && CommentErrors(body) != [] ==>
                r == Invalid(CommentErrors(body)) && unchanged(this)
      ensures caller.Some? && body.List? ==> r == Failed && unchanged(this)
      ensures caller.Some? && body.Text? && body.s != [] && (postId !in old(posts) || caller.value.userId !in old(users)) ==>
                r == Failed && unchanged(this)
      ensures caller.Some? && body.Text? && body.s != [] && postId in old(posts) && caller.value.userId in old(users) ==>
                && r == Done(old(nextCommentId))
                && r.id !in old(comments)
                && comments == old(comments)[r.id := Comment(caller.value.userId, postId, body.s)]
                && nextCommentId == old(nextCommentId) + 1
                && users == old(users) && posts == old(posts)
                && nextUserId == old(nextUserId) && nextPostId == old(nextPostId)
    {
      if caller.None? {
        return Denied(NotLoggedIn);
      }
      var errors := CommentErrors(body);
      if errors != [] {
        return Invalid(errors);
      }
      if body.List? || postId !in posts || caller.value.userId !in users {
        return Failed;
      }
      var id := nextCommentId;
      comments := comments[id := Comment(caller.value.userId, postId, body.s)];
      nextCommentId := nextCommentId + 1;
      r := Done(id);
    }

    /** GET /edit-post/:id (server.js:134-153). Not behind
        `mustBeLoggedIn`, but the ownership test turns every anonymous
        caller away. */
    function EditForm(caller: Option<Identity>, id: int): (r: Option<Post>)
      reads this
      ensures r.Some? <==> id in posts && caller.Some? && posts[id].authorId == caller.value.userId
      ensures r.Some? <==> GuardPost(caller, posts, id).None?
      ensures r.Some? ==> r.value == posts[id]
    {
      if id in posts && IsAuthor(posts[id], caller) then Some(posts[id]) else None
    }

    /** GET /post/:id (server.js:206-227). The post is shown when its row
        joins with its author's row; the page gets the comments on it whose
        author row exists, and whether the caller wrote the post. */
    function ViewPost(caller: Option<Identity>, id: int): (r: Option<PostView>)
      reads this
      ensures r.Some? <==> id in posts && posts[id].authorId in users
      ensures r.Some? ==> r.value.post == posts[id]
      ensures r.Some? ==>
                (r.value.isAuthor <==> caller.Some? && caller.value.userId == posts[id].authorId)
      ensures r.Some? ==>
                forall c :: c in r.value.commentIds <==>
                  c in comments && comments[c].postId == id && comments[c].authorId in users
    {
      if id in posts && posts[id].authorId in users then
        var ids := set c | c in comments && comments[c].postId == id && comments[c].authorId in users;
        Some(PostView(posts[id], IsAuthor(posts[id], caller), ids))
      else
        None
    }

    /** In a consistent store every post's author exists, so every post can be
        viewed and the page lists every comment on it. */
    lemma ViewPostShowsEveryPost(caller: Option<Identity>, id: int)
      requires Valid()
      ensures ViewPost(caller, id).Some? <==> id in posts
      ensures id in posts ==>
                forall c :: c in ViewPost(caller, id).value.commentIds <==>
                  c in comments && comments[c].postId == id
    {
    }
  }

  /** On an empty store, registering succeeds exactly for a valid username
      and password, and logging in afterwards with the same form values gives
      the session registration gave (provided the password hash accepts its
      own password, which bcrypt promises). */
  method RegisterThenLogin(username: FormValue, password: FormValue, salt: Salt,
                           hash: (JsString, Salt) -> Hash, matches: (JsString, Hash) -> bool)
    returns (registered: RegisterOutcome, login: LoginOutcome)
    requires matches(AsText(password), hash(AsText(password), salt))
    ensures registered.Registered? <==> ValidUsername(Trim(AsText(username))) && ValidPassword(AsText(password))
    ensures registered.Registered? ==> login == LoggedIn(registered.session)
    ensures registered.RegisterRejected? ==> login == LoginRejected([InvalidLogin])
  {
    var store := new Store();
    registered := store.Register(username, password, salt, hash);
    login := store.Login(username, password, matches);
  }

  /** On any consistent store, registering and then logging in with the same
      form values gives the session registration gave; registering succeeds
      exactly when the names and password are valid and the name is free. */
  method RegisterThenLoginOn(s: Store, username: FormValue, password: FormValue, salt: Salt,
                             hash: (JsString, Salt) -> Hash, matches: (JsString, Hash) -> bool)
    returns (registered: RegisterOutcome, login: LoginOutcome)
    requires s.Valid()
    requires matches(AsText(password), hash(AsText(password), salt))
    modifies s
    ensures s.Valid()
    ensures registered.Registered? <==>
              && ValidUsername(Trim(AsText(username))) && ValidPassword(AsText(password))
              && !NameInUse(old(s.users), Trim(AsText(username)))
    ensures registered.Registered? ==> login == LoggedIn(registered.session)
  {
    registered := s.Register(username, password, salt, hash);
    login := s.Login(username, password, matches);
    if registered.Registered? {
      var id := registered.session.userId;
      assert id in s.users && s.users[id].username == Trim(AsText(username));
      assert matches(AsText(password), s.users[id].password);
      assert UniqueUsernames(s.users);
      assert login.LoggedIn?;
      assert login.session.userId == id;
    }
  }

  /** As written, an author cannot delete their own post once anyone has
      commented on it: the delete raises and the post stays. The corrected
      delete removes the post and its comments. */
  method CommentedPostSurvivesDelete(author: FormValue, password: FormValue, salt: Salt,
                                     hash: (JsString, Salt) -> Hash, title: FormValue, body: FormValue,
                                     sanitize: JsString -> JsString, now: Timestamp, comment: JsString)
    returns (asWritten: Outcome, kept: bool, corrected: Outcome, gone: bool)
    requires ValidUsername(Trim(AsText(author))) && ValidPassword(AsText(password))
    requires ValidatePost(title, body, sanitize).errors == []
    requires comment != []
    ensures asWritten == Failed && kept
    ensures corrected.Done? && gone
  {
    var store := new Store();
    var a := store.Register(author, password, salt, hash);
    var created := store.CreatePost(Some(a.session), title, body, sanitize, now);
    var commented := store.AddComment(Some(a.session), created.id, Text(comment));
    assert HasComments(store.comments, created.id) by {
      assert store.comments[commented.id].postId == created.id;
    }
    asWritten := store.DeletePost(Some(a.session), created.id);
    kept := created.id in store.posts;
    corrected := store.DeletePostAndComments(Some(a.session), created.id);
    gone := created.id !in store.posts && !HasComments(store.comments, created.id);
  }

  /** Registering a taken name is refused with the taken-name message and
      adds no row, whatever the password. */
  method RegisterTwice(username: FormValue, password1: FormValue, password2: FormValue,
                       salt: Salt, hash: (JsString, Salt) -> Hash)
    returns (first: RegisterOutcome, second: RegisterOutcome, userCount: nat)
    requires ValidUsername(Trim(AsText(username))) && ValidPassword(AsText(password1))
    ensures first.Registered?
    ensures second.RegisterRejected? && UsernameTaken in second.errors
    ensures userCount == 1
  {
    var store := new Store();
    first := store.Register(username, password1, salt, hash);
    second := store.Register(username, password2, salt, hash);
    userCount := |store.users|;
  }

  /** A post stays in place, unchanged, when a user other than its author
      asks to edit it and then to delete it. */
  method OthersCannotTouch(author: FormValue, authorPassword: FormValue, other: FormValue,
                           otherPassword: FormValue, salt: Salt, hash: (JsString, Salt) -> Hash,
                           title: FormValue, body: FormValue, newTitle: FormValue, newBody: FormValue,
                           sanitize: JsString -> JsString, now: Timestamp)
    returns (created: Outcome, edited: Outcome, deleted: Outcome, kept: Option<Post>)
    requires ValidUsername(Trim(AsText(author))) && ValidPassword(AsText(authorPassword))
    requires ValidUsername(Trim(AsText(other))) && ValidPassword(AsText(otherPassword))
    requires Trim(AsText(author)) != Trim(AsText(other))
    requires ValidatePost(title, body, sanitize).errors == []
    ensures created.Done? && edited == Denied(NotAuthor) && deleted == Denied(NotAuthor)
    ensures var v := ValidatePost(title, body, sanitize);
            kept.Some? && kept.value.title == v.title && kept.value.content == v.body
  {
    var store := new Store();
    var a := store.Register(author, authorPassword, salt, hash);
    var b := store.Register(other, otherPassword, salt, hash);
    created := store.CreatePost(Some(a.session), title, body, sanitize, now);
    edited := store.EditPost(Some(b.session), created.id, newTitle, newBody, sanitize);
    deleted := store.DeletePost(Some(b.session), created.id);
    kept := if created.id in store.posts then Some(store.posts[created.id]) else None;
  }
}
