/**
 * The input checks of server.js. Each handler runs a fixed series of
 * `if (condition) errors.push(message)` statements; a check function here
 * returns the list those statements build, and its contract says when each
 * message is present and that they appear in the order the checks run.
 */
module Validation {
  import opened JsText

  /** The error messages the handlers produce, one constructor each. */
  datatype Message =
    | NoUsername | UsernameTooShort | UsernameTooLong | UsernameCharacters
    | NoPassword | PasswordTooShort | PasswordTooLong | UsernameTaken
    | InvalidLogin | NoTitle | NoContent | NoComment

  /** The text of each message as the handlers write it (server.js:365-372,
      378, 319-338, 256-257 and 288). The password messages say "3" and "10"
      although the bounds they report are 6 and 20. */
  function MessageText(m: Message): string {
    match m
    case NoUsername => "You must provide a username."
    case UsernameTooShort => "Your username must have at least 3 characters"
    case UsernameTooLong => "Your username can have max 10 characters"
    case UsernameCharacters => "Username can only contain letters and numbers."
    case NoPassword => "You must provide a password."
    case PasswordTooShort => "Your password must have at least 3 characters"
    case PasswordTooLong => "Your password can have max 10 characters"
    case UsernameTaken => "Username is already taken."
    case InvalidLogin => "Invalid username/password"
    case NoTitle => "you must provide a title"
    case NoContent => "you must provide content"
    case NoComment => "you must provide a comment"
  }

  /** The checks of each form, in the order they run. */
  const UsernameChecks := [NoUsername, UsernameTooShort, UsernameTooLong, UsernameCharacters]
  const PasswordChecks := [NoPassword, PasswordTooShort, PasswordTooLong]
  const RegistrationChecks := UsernameChecks + PasswordChecks + [UsernameTaken]
  const PostChecks := [NoTitle, NoContent]

  /** What one `if (failed) errors.push(message)` contributes. */
  function Check(failed: bool, message: Message): seq<Message> {
    if failed then [message] else []
  }

  /** `xs` is `ys` with some elements left out, the rest in their order. */
  predicate IsSubsequence(xs: seq<Message>, ys: seq<Message>)
    decreases |ys|
  {
    if ys == [] then xs == []
    else IsSubsequence(xs, ys[1..]) || (xs != [] && xs[0] == ys[0] && IsSubsequence(xs[1..], ys[1..]))
  }

  lemma {:induction false} SubsequenceEmpty(ys: seq<Message>)
    ensures IsSubsequence([], ys)
    decreases |ys|
  {
    if ys != [] {
      SubsequenceEmpty(ys[1..]);
    }
  }

  /** Subsequences of two lists, joined, are a subsequence of the joined lists. */
  lemma {:induction false} SubsequenceConcat(a: seq<Message>, b: seq<Message>, c: seq<Message>, d: seq<Message>)
    requires IsSubsequence(a, b) && IsSubsequence(c, d)
    ensures IsSubsequence(a + c, b + d)
    decreases |b|
  {
    if b == [] {
      assert a + c == c && b + d == d;
    } else {
      assert (b + d)[1..] == b[1..] + d;
      if IsSubsequence(a, b[1..]) {
        SubsequenceConcat(a, b[1..], c, d);
      } else {
        SubsequenceConcat(a[1..], b[1..], c, d);
        assert (a + c)[1..] == a[1..] + c;
      }
    }
  }

  /** One check contributes at most its own message. */
  lemma CheckInOrder(failed: bool, message: Message)
    ensures IsSubsequence(Check(failed, message), [message])
  {
    SubsequenceEmpty([]);
  }

  /** The username rule the checks enforce together. */
  predicate ValidUsername(name: JsString) {
    3 <= |name| <= 10 && AllAsciiAlnum(name)
  }

  /** The password rule the checks enforce together. */
  predicate ValidPassword(password: JsString) {
    6 <= |password| <= 20
  }

  /** The username checks of server.js:365-368, run on the trimmed
      username. Every failing check adds its message: an empty name gets only
      the first, a non-empty one any of the other three. */
  function UsernameErrors(name: JsString): (errs: seq<Message>)
    ensures errs == [] <==> ValidUsername(name)
    ensures NoUsername in errs <==> name == []
    ensures UsernameTooShort in errs <==> 0 < |name| < 3
    ensures UsernameTooLong in errs <==> |name| > 10
    ensures UsernameCharacters in errs <==> name != [] && !AllAsciiAlnum(name)
    ensures forall m :: m in errs ==> m in UsernameChecks
  {
    Check(name == [], NoUsername)
    + Check(name != [] && |name| < 3, UsernameTooShort)
    + Check(name != [] && |name| > 10, UsernameTooLong)
    + Check(name != [] && !AllAsciiAlnum(name), UsernameCharacters)
  }

  /** The username errors come in the order the checks run. */
  lemma UsernameErrorsInOrder(name: JsString)
    ensures IsSubsequence(UsernameErrors(name), UsernameChecks)
  {
    var e1 := Check(name == [], NoUsername);
    var e2 := Check(name != [] && |name| < 3, UsernameTooShort);
    var e3 := Check(name != [] && |name| > 10, UsernameTooLong);
    var e4 := Check(name != [] && !AllAsciiAlnum(name), UsernameCharacters);
    CheckInOrder(name == [], NoUsername);
    CheckInOrder(name != [] && |name| < 3, UsernameTooShort);
    CheckInOrder(name != [] && |name| > 10, UsernameTooLong);
    CheckInOrder(name != [] && !AllAsciiAlnum(name), UsernameCharacters);
    SubsequenceConcat(e1, [NoUsername], e2, [UsernameTooShort]);
    assert [NoUsername] + [UsernameTooShort] == UsernameChecks[..2];
    SubsequenceConcat(e1 + e2, UsernameChecks[..2], e3, [UsernameTooLong]);
    assert UsernameChecks[..2] + [UsernameTooLong] == UsernameChecks[..3];
    SubsequenceConcat(e1 + e2 + e3, UsernameChecks[..3], e4, [UsernameCharacters]);
    assert UsernameChecks[..3] + [UsernameCharacters] == UsernameChecks;
  }

  /** The password checks of server.js:370-372, run on the untrimmed
      password. */
  function PasswordErrors(password: JsString): (errs: seq<Message>)
    ensures errs == [] <==> ValidPassword(password)
    ensures NoPassword in errs <==> password == []
    ensures PasswordTooShort in errs <==> 0 < |password| < 6
    ensures PasswordTooLong in errs <==> |password| > 20
    ensures forall m :: m in errs ==> m in PasswordChecks
  {
    Check(password == [], NoPassword)
    + Check(password != [] && |password| < 6, PasswordTooShort)
    + Check(password != [] && |password| > 20, PasswordTooLong)
  }

  /** The password errors come in the order the checks run. */
  lemma PasswordErrorsInOrder(password: JsString)
    ensures IsSubsequence(PasswordErrors(password), PasswordChecks)
  {
    var e1 := Check(password == [], NoPassword);
    var e2 := Check(password != [] && |password| < 6, PasswordTooShort);
    var e3 := Check(password != [] && |password| > 20, PasswordTooLong);
    CheckInOrder(password == [], NoPassword);
    CheckInOrder(password != [] && |password| < 6, PasswordTooShort);
    CheckInOrder(password != [] && |password| > 20, PasswordTooLong);
    SubsequenceConcat(e1, [NoPassword], e2, [PasswordTooShort]);
    assert [NoPassword] + [PasswordTooShort] == PasswordChecks[..2];
    SubsequenceConcat(e1 + e2, PasswordChecks[..2], e3, [PasswordTooLong]);
    assert PasswordChecks[..2] + [PasswordTooLong] == PasswordChecks;
  }

  /** All the registration checks (server.js:365-378): the username errors
      first, then the password errors, then the taken-name error. They
      accumulate: no check is skipped because an earlier one failed. */
  function RegisterErrors(name: JsString, password: JsString, taken: bool): (errs: seq<Message>)
    ensures errs == [] <==> ValidUsername(name) && ValidPassword(password) && !taken
    ensures UsernameTaken in errs <==> taken
    ensures |UsernameErrors(name)| <= |errs| && errs[..|UsernameErrors(name)|] == UsernameErrors(name)
    ensures forall m :: m in PasswordChecks ==> (m in errs <==> m in PasswordErrors(password))
  {
    var u, p, t := UsernameErrors(name), PasswordErrors(password), Check(taken, UsernameTaken);
    assert (u + p + t)[..|u|] == u;
    u + p + t
  }

  /** The registration errors come in the order the checks run, and the
      username messages among them are exactly the username errors; with the
      contract of `RegisterErrors` this fixes the list. */
  lemma RegisterErrorsInOrder(name: JsString, password: JsString, taken: bool)
    ensures IsSubsequence(RegisterErrors(name, password, taken), RegistrationChecks)
    ensures forall m :: m in UsernameChecks ==>
              (m in RegisterErrors(name, password, taken) <==> m in UsernameErrors(name))
  {
    var u, p, t := UsernameErrors(name), PasswordErrors(password), Check(taken, UsernameTaken);
    UsernameErrorsInOrder(name);
    PasswordErrorsInOrder(password);
    CheckInOrder(taken, UsernameTaken);
    SubsequenceConcat(u, UsernameChecks, p, PasswordChecks);
    SubsequenceConcat(u + p, UsernameChecks + PasswordChecks, t, [UsernameTaken]);
  }

  /** The login input checks of server.js:314-320 on the coerced, trimmed
      username and the coerced password. They reassign the list rather than
      push to it, so two failures still give one message. */
  function LoginInputErrors(name: JsString, password: JsString): (errs: seq<Message>)
    ensures errs == [] <==> name != [] && password != []
    ensures errs != [] ==> errs == [InvalidLogin]
  {
    var errors := [];
    var errors := if name == [] then [InvalidLogin] else errors;
    if password == [] then [InvalidLogin] else errors
  }

  /** A post form after `sharedPostValidation`: the errors and the
      normalised title and body it writes back into the request. */
  datatype PostInput = PostInput(errors: seq<Message>, title: JsString, body: JsString)

  /** `sharedPostValidation` (server.js:246-260): each field is coerced to a
      string, trimmed and passed through the sanitizer; a field that ends up
      empty is reported, title before body. */
  function ValidatePost(title: FormValue, body: FormValue, sanitize: JsString -> JsString): (r: PostInput)
    ensures r.title == sanitize(Trim(AsText(title))) && r.body == sanitize(Trim(AsText(body)))
    ensures r.errors == [] <==> r.title != [] && r.body != []
    ensures NoTitle in r.errors <==> r.title == []
    ensures NoContent in r.errors <==> r.body == []
  {
    var t := sanitize(Trim(AsText(title)));
    var b := sanitize(Trim(AsText(body)));
    PostInput(Check(t == [], NoTitle) + Check(b == [], NoContent), t, b)
  }

  /** The post errors come in the order the checks run. */
  lemma PostErrorsInOrder(title: FormValue, body: FormValue, sanitize: JsString -> JsString)
    ensures IsSubsequence(ValidatePost(title, body, sanitize).errors, PostChecks)
  {
    var r := ValidatePost(title, body, sanitize);
    CheckInOrder(r.title == [], NoTitle);
    CheckInOrder(r.body == [], NoContent);
    SubsequenceConcat(Check(r.title == [], NoTitle), [NoTitle], Check(r.body == [], NoContent), [NoContent]);
  }

  /** The comment check of server.js:288: the raw `body` field must be
      truthy. */
  function CommentErrors(body: FormValue): (errs: seq<Message>)
    ensures errs == [] <==> (body.Text? && body.s != []) || body.List?
    ensures errs != [] ==> errs == [NoComment]
  {
    Check(!Truthy(body), NoComment)
  }
}
