# Blog server: validators and ownership-gated content store

A model of the logic in `server.js`, an Express blogging server backed by SQLite, with two parts:

- **Input validators.** These are the checks the register, login, create/edit-post and add-comment handlers run on form fields. Each one builds an ordered list of error messages. They are modelled as pure functions in `validation.dfy`, over JavaScript strings modelled as sequences of UTF-16 code units (`js_text.dfy`). That way `length`, `trim` and the `[a-zA-Z0-9]` regular expression count and match as they do in the running program. Messages are a `Message` datatype. `MessageText` gives each message's exact text.
- **The content store.** This is what the handlers do to the `users`, `posts` and `comments` tables. It is modelled as the class `Blog.Store` in `blog.dfy`. The class has one map per table from row id to row, plus the next AUTOINCREMENT id of each table. Its invariant `Valid()` says:
  - ids are positive and never reused;
  - usernames are unique and satisfy the registration rules;
  - every stored post title, post body and comment is non-empty;
  - every `REFERENCES` clause of the schema holds: each post's author exists, and each comment's author and post exist.

  Each handler is a method. Its postcondition gives the whole new state in terms of the old one. Read-only handlers are functions or methods that change nothing.

Library calls are parameters, so no proof depends on how they behave:

- `sanitize` is sanitize-html.
- `hash(password, salt)` and `matches(password, hash)` are bcrypt.
- `now` is the clock.
- `caller: Option<Identity>` is the JWT middleware's result. `None` means `req.user = false`.

Only the client scenarios assume anything about them:

- `RegisterThenLogin` and `RegisterThenLoginOn` require that a hash accepts its own password.
- `OthersCannotTouch` and `CommentedPostSurvivesDelete` require that the sanitized title and body of the post they create are non-empty, so their post passes validation.

Behaviour taken from the code:

- The password length errors say "3" and "10" even though the limits are 6 and 20.
- Login failures all produce the same single message and set no session.
- `add-comment` stores the raw `body` field. It sanitizes the unused `title` field instead.
- The handlers never check that a referenced row exists. The storage engine does: the SQLite that better-sqlite3 bundles is built with foreign keys enforced by default, so the `REFERENCES` clauses at server.js:31 and 55-56 hold.
  - A comment on a post that does not exist makes the insert raise.
  - Deleting a post that has comments raises, and the post stays (see "## Findings").
- An anonymous caller viewing `/post/:id` or `/edit-post/:id` does not cause a fault. `false.userid` is `undefined`, so the author check is simply false.

## Model

| member | source | states |
|---|---|---|
| `JsText.TrimSlice` | server.js:363 | `trim` keeps one contiguous block of the input and drops only whitespace on either side. The result has no whitespace at either end, and it is empty exactly when the input is all whitespace. |
| `JsText.TrimIdempotent` | server.js:317 | Trimming twice gives the same result as trimming once. |
| `Validation.UsernameErrors` | server.js:365-368 | The list is empty iff the trimmed name has 3 to 10 characters, all ASCII letters or digits. "You must provide a username." appears iff the name is empty. The too-short, too-long and bad-character messages appear iff the name is non-empty and has the matching fault. No other message appears. |
| `Validation.UsernameErrorsInOrder` | server.js:365-368 | Username errors appear in the order the checks run. |
| `Validation.PasswordErrors` | server.js:370-372 | The list is empty iff the password has 6 to 20 code units. "You must provide a password." appears iff it is empty. The too-short and too-long messages (whose text says 3 and 10) appear iff it is non-empty and under 6 or over 20. |
| `Validation.PasswordErrorsInOrder` | server.js:370-372 | Password errors appear in the order the checks run. |
| `Validation.RegisterErrors` | server.js:365-380 | Registration is refused iff the username or password breaks its rule or the name is taken. "Username is already taken." appears iff the name is taken. Errors accumulate: all username errors come first, unchanged, and every password error is also present. |
| `Validation.RegisterErrorsInOrder` | server.js:365-378 | All registration errors appear in the order the checks run, and the username messages among them are exactly the username errors. Together with `RegisterErrors`'s contract this fixes the list exactly: the username errors, then the password errors, then the taken-name message. |
| `Validation.LoginInputErrors` | server.js:314-324 | A blank trimmed username or an empty password yields exactly `["Invalid username/password"]`, even when both are blank. Otherwise there is no error. |
| `Validation.ValidatePost` | server.js:246-260 | Title and body become the sanitized trimmed text, with a non-string treated as "". "you must provide a title" or "you must provide content" appears iff that result is empty. The list is empty iff both are non-empty. |
| `Validation.PostErrorsInOrder` | server.js:256-257 | The title error comes before the content error. |
| `Validation.CommentErrors` | server.js:288 | The only possible error is "you must provide a comment", and it appears iff the raw `body` field is falsy (missing or ""). |
| `Blog.GuardPost` | server.js:155-167 | An edit or delete may go ahead iff the caller is logged in, the post exists and the caller's userid is its authorid. Otherwise the first failing gate is reported. |
| `Blog.Store.constructor` | server.js:12-62 | Creates empty tables whose id counters start at 1. |
| `Blog.Store.Register` | server.js:357-411 | Keeps `Valid()`, so usernames stay unique. Refused with `RegisterErrors` of the trimmed name: then nothing changes. Otherwise exactly one user row (trimmed name, hashed password) is added under a fresh id, and the session names that row. |
| `Blog.Store.Login` | server.js:311-354 | Every failure yields exactly `["Invalid username/password"]` and no session. It succeeds iff the trimmed name and the password are non-empty and a user with that name has a hash the password matches. The session is that user's id and name. |
| `Blog.Store.CreatePost` | server.js:262-277 | An anonymous caller is denied and nothing changes. Validation errors change nothing. A caller whose id names no user row makes the insert fail, and nothing changes. Otherwise one post row is added under a fresh id, with the sanitized title and body, the caller as author and `now` as date. Keeps `Valid()`. |
| `Blog.Store.EditPost` | server.js:155-182 | If the guard fails or validation fails, nothing changes. Otherwise only that post's title and content are replaced by the validated values. Its author, date, every other row and every counter stay the same. |
| `Blog.Store.DeletePost` | server.js:184-204 | If the guard fails, nothing changes. If a comment is on the post, the delete fails on the foreign key and nothing changes. Otherwise exactly that post row is removed. Keeps `Valid()`. |
| `Blog.Store.DeletePostAndComments` | server.js:199-201 | The corrected delete. If the guard fails, nothing changes. Otherwise the post row and exactly the comments on it are removed, no comment is left on it, and `Valid()` holds. |
| `Blog.Store.AddComment` | server.js:280-307 | An anonymous caller is denied. A falsy body gives "you must provide a comment". An array body makes the insert raise. So does a post id that names no post, or a caller id that names no user. In all these cases nothing changes. Otherwise the non-empty string body is stored raw, under a fresh id, with the caller as author. Keeps `Valid()`. |
| `Blog.Store.EditForm` | server.js:134-153 | The edit form is shown iff the post exists and the caller is logged in and is its author. That is the same gate `GuardPost` applies to the edit itself. An anonymous caller is turned away without a fault. |
| `Blog.Store.ViewPost` | server.js:206-227 | The page is shown iff the post exists and its author row exists. `isAuthor` holds iff a logged-in caller's id equals the authorid, so it is false for anonymous callers. The comments listed are those on the post whose author exists. |
| `Blog.Store.ViewPostShowsEveryPost` | server.js:208-221 | In a store satisfying `Valid()`, the inner joins drop nothing: every existing post can be viewed, and its page lists every comment on it. |
| `Blog.RegisterThenLogin` | server.js:389-399 | On an empty store, registration succeeds iff the username and password are valid. Logging in afterwards with the same form values gives the same session. |
| `Blog.RegisterThenLoginOn` | server.js:357-399 | On any store satisfying `Valid()`, registration succeeds iff the username and password are valid and the name is free. Logging in afterwards with the same form values gives the session registration gave. `Valid()` still holds. |
| `Blog.CommentedPostSurvivesDelete` | server.js:199-201 | After an author creates a post and a comment is added to it, the author's own delete fails and the post stays. The corrected delete then succeeds and leaves neither the post nor a comment on it. |
| `Blog.RegisterTwice` | server.js:375-384 | A second registration of a name is refused with "Username is already taken.", and only one user row exists. |
| `Blog.OthersCannotTouch` | server.js:164-196 | A user other than the author gets `NotAuthor` for both edit and delete, and the post stays in place with its title and content unchanged. |

## Left out

- SQL text, schema creation, the WAL pragma and the setup transaction (server.js:7-62). The tables are maps with counters.
- Row order in query results (`ORDER BY`). The home page and dashboard listings (server.js:97-123) are left out too: they only read and render.
- `Blog.Store.ViewPost`: the comments come back as a set of ids. Their newest-first order is not modelled.
- The `likes` table. No handler reads or writes it.
- bcrypt salting and hashing. These are the parameters `salt`, `hash` and `matches`, about which nothing is assumed except in `RegisterThenLogin` and `RegisterThenLoginOn`.
- JWT signing and verification, the 24-hour expiry and `Date.now` (server.js:83, 343, 399). The caller's identity is the `Option<Identity>` the middleware produced, so token expiry is not modelled.
- The output of sanitize-html. It is an uninterpreted function, so the model claims nothing about stripped tags or idempotence.
- Cookie attributes, rendering, redirect targets, static files, logging and `app.listen`. These are I/O. Each handler's outcome datatype records which response it gives.
- SQLite type affinity. The `STRING` columns have NUMERIC affinity, so a text that looks like a number is stored as that number and read back in its canonical form: "007" comes back as 7, "1e3" as 1000. This applies to usernames, post titles, post bodies and comment bodies. The model stores and compares every such field as the exact string, so in those cases what `Register`, `CreatePost`, `EditPost` and `AddComment` say is stored differs from what the program reads back. The conversion also changes name matching, which the model does not reproduce:
  - `Blog.Store.Login`: after "007" registers (stored as 7), the program lets "7" log in as that user (server.js:326-327). The model refuses "7".
  - `Blog.Store.Register`: after "007" registers, the program's taken-name lookup (server.js:375-378) refuses "0007" as taken. The model accepts it as a new name.
- The `REFERENCES` clauses of the `likes` table. No handler writes a `likes` row, so they never block a delete.
- Conversion of the `:id` route parameter and of the `postId` form field to an integer. The model takes integers, so a non-numeric id is not modelled.
- `Blog.Store.AddComment`: the sanitized `title` field the handler computes (server.js:283-286) is not modelled. It is never used.
- GET `/login`, GET `/logout` and GET `/create-post`. They render a page or clear the cookie and touch no table.

## Findings

| source | as written | input that shows it | evidently intended | confidence | as-written member | corrected member |
|---|---|---|---|---|---|---|
| server.js:199-201 | `DELETE FROM posts WHERE id = ?` runs after the ownership checks. Nothing removes the post's comments, and `comments.postid` references `posts (id)` with no `ON DELETE` action (server.js:56). | A user creates post 1. Any logged-in user adds a comment with `postId` 1. The author posts to `/delete-post/1`. The statement raises "FOREIGN KEY constraint failed", the request errors and post 1 stays. | The author can delete their own post, and its comments go with it. | medium: it rests on better-sqlite3's default build enforcing foreign keys; not executed | `Blog.Store.DeletePost`, `Blog.CommentedPostSurvivesDelete` | `Blog.Store.DeletePostAndComments` |
