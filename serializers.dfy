/** The input checks of the API's serializers: sign-up, token exchange,
    reviews and the self-service profile. Each reads the user or review
    table and never writes it; a failed check is a 400 response, except the
    unknown user of a token exchange, which is a 404. */
module Serializers {
  import opened Records

  const USERNAME_MAX_LENGTH: nat := 150
  const EMAIL_MAX_LENGTH: nat := 254
  const NAME_MAX_LENGTH: nat := 150

  /** The username reserved for the self-service endpoint. */
  const RESERVED_USERNAME: string := "me"

  predicate IsSlugChar(c: char) {
    ('a' <= c <= 'z') || ('A' <= c <= 'Z') || ('0' <= c <= '9') || c == '-' || c == '_'
  }

  /** A required slug field: non-empty, at most `maxLength` characters, made of
      ASCII letters, digits, hyphens and underscores. */
  predicate SlugFieldOk(s: string, maxLength: nat) {
    0 < |s| <= maxLength && forall i :: 0 <= i < |s| ==> IsSlugChar(s[i])
  }

  /** A required email field of at most 254 characters. */
  predicate EmailFieldOk(s: string) {
    0 < |s| <= EMAIL_MAX_LENGTH
  }

  function LowerChar(c: char): char {
    if 'A' <= c <= 'Z' then (c as int - 'A' as int + 'a' as int) as char else c
  }

  /** Lower-casing, character by character. */
  function Lower(s: string): (r: string)
    ensures |r| == |s|
    ensures forall i :: 0 <= i < |s| ==> r[i] == LowerChar(s[i])
  {
    if s == [] then [] else [LowerChar(s[0])] + Lower(s[1..])
  }

  predicate IsReservedUsername(s: string) {
    Lower(s) == RESERVED_USERNAME
  }

  /** The reserved name is matched without regard to case, and nothing else
      is reserved. */
  lemma {:induction false} ReservedSpellings(s: string)
    ensures IsReservedUsername(s) <==> s == "me" || s == "Me" || s == "mE" || s == "ME"
  {
    if |s| == 2 {
      var l := Lower(s);
      assert l == [LowerChar(s[0]), LowerChar(s[1])];
      assert s == [s[0], s[1]];
    }
  }

  predicate UsernameTaken(users: map<Id, User>, username: string) {
    exists k :: k in users && users[k].username == username
  }

  predicate EmailTaken(users: map<Id, User>, email: string) {
    exists k :: k in users && users[k].email == email
  }

  // ---------------------------------------------------------------------
  // Sign-up

  datatype SignUpError =
    | InvalidUsername
    | ReservedUsername
    | InvalidEmail
    | EmailMismatch
    | UsernameOrEmailTaken

  /** The sign-up checks: the two fields, the reserved name, and, for a
      username already stored, the email it was stored with. */
  function ValidateSignUp(users: map<Id, User>, username: string, email: string): (r: Outcome<SignUpError>)
    ensures r == Pass ==>
      SlugFieldOk(username, USERNAME_MAX_LENGTH) && !IsReservedUsername(username) && EmailFieldOk(email)
    ensures !SlugFieldOk(username, USERNAME_MAX_LENGTH) ==> r == Fail(InvalidUsername)
    ensures SlugFieldOk(username, USERNAME_MAX_LENGTH) && !IsReservedUsername(username) && !EmailFieldOk(email) ==>
      r == Fail(InvalidEmail)
    ensures r != Fail(UsernameOrEmailTaken)
  {
    if !SlugFieldOk(username, USERNAME_MAX_LENGTH) then Fail(InvalidUsername)
    else if IsReservedUsername(username) then Fail(ReservedUsername)
    else if !EmailFieldOk(email) then Fail(InvalidEmail)
    else if exists k :: k in users && users[k].username == username && users[k].email != email then Fail(EmailMismatch)
    else Pass
  }

  /** Every spelling of the reserved name is refused, whatever the table and
      the email. */
  lemma SignUpRefusesReservedName(users: map<Id, User>, username: string, email: string)
    requires Lower(username) == RESERVED_USERNAME
    ensures ValidateSignUp(users, username, email) == Fail(ReservedUsername)
  {
    ReservedSpellings(username);
  }

  /** A stored username passes only with the email it is stored with; an
      unknown one passes the table check whatever the email. */
  lemma SignUpEmailRule(users: map<Id, User>, username: string, email: string)
    requires UniqueUserKeys(users)
    requires SlugFieldOk(username, USERNAME_MAX_LENGTH) && !IsReservedUsername(username) && EmailFieldOk(email)
    ensures !UsernameTaken(users, username) ==> ValidateSignUp(users, username, email) == Pass
    ensures forall k :: k in users && users[k].username == username ==>
      (ValidateSignUp(users, username, email) == Pass <==> users[k].email == email)
  {
  }

  // ---------------------------------------------------------------------
  // Token exchange

  datatype ActivationVerdict = Accept | UnknownUser | Reject

  /** The token-exchange checks, in the order the fields are validated: the
      username field, then the user's existence (which aborts with not-found
      before the code is looked at), then the code field, then the code
      itself against the stored one. */
  function ValidateActivation(users: map<Id, User>, username: string, code: string): (r: ActivationVerdict)
    ensures r == UnknownUser <==> SlugFieldOk(username, USERNAME_MAX_LENGTH) && !UsernameTaken(users, username)
    ensures r == Accept ==>
      SlugFieldOk(username, USERNAME_MAX_LENGTH) && code != "" &&
      exists k :: k in users && users[k].username == username && users[k].confirmationCode == Some(code)
  {
    if !SlugFieldOk(username, USERNAME_MAX_LENGTH) then Reject
    else if !UsernameTaken(users, username) then UnknownUser
    else if code == "" then Reject
    else if exists k :: k in users && users[k].username == username && users[k].confirmationCode != Some(code) then Reject
    else Accept
  }

  /** A well-formed username nobody has is not-found, whatever the code. */
  lemma ActivationUnknownUserFirst(users: map<Id, User>, username: string, code: string)
    requires SlugFieldOk(username, USERNAME_MAX_LENGTH)
    ensures ValidateActivation(users, username, code) == UnknownUser <==> !UsernameTaken(users, username)
  {
  }

  /** For a stored user, the exchange passes exactly when the submitted code
      is non-blank and equal to the stored one. */
  lemma ActivationCodeRule(users: map<Id, User>, k: Id, code: string)
    requires UniqueUserKeys(users) && k in users
    requires SlugFieldOk(users[k].username, USERNAME_MAX_LENGTH)
    ensures ValidateActivation(users, users[k].username, code) == Accept <==>
      code != "" && users[k].confirmationCode == Some(code)
  {
  }

  /** A user still holding the default code, whatever their role (an
      account an admin created and nobody signed up for, say), can be
      exchanged for a token by anyone who knows that code. */
  lemma DefaultCodeIsAccepted(users: map<Id, User>, k: Id)
    requires UniqueUserKeys(users) && k in users
    requires users[k].confirmationCode == Some(DEFAULT_CODE)
    requires SlugFieldOk(users[k].username, USERNAME_MAX_LENGTH)
    ensures ValidateActivation(users, users[k].username, DEFAULT_CODE) == Accept
  {
    ActivationCodeRule(users, k, DEFAULT_CODE);
  }

  // ---------------------------------------------------------------------
  // Reviews

  datatype ReviewError = ScoreOutOfRange | DuplicateReview

  function ValidateScore(score: int): (r: Outcome<ReviewError>)
    ensures r == Pass <==> MIN_SCORE <= score <= MAX_SCORE
    ensures r != Pass ==> r == Fail(ScoreOutOfRange)
  {
    if !(MIN_SCORE <= score <= MAX_SCORE) then Fail(ScoreOutOfRange) else Pass
  }

  /** On POST, a second review by the same author for the same title is
      refused; other methods skip the check. */
  function ValidateReview(reviews: map<Id, Review>, verb: string, author: Id, title: Id): (r: Outcome<ReviewError>)
    ensures verb != "POST" ==> r == Pass
    ensures verb == "POST" ==> (r == Pass <==> forall k :: k in reviews ==> !(reviews[k].author == author && reviews[k].title == title))
    ensures r != Pass ==> r == Fail(DuplicateReview)
  {
    if verb != "POST" then Pass
    else if ReviewExists(reviews, author, title) then Fail(DuplicateReview)
    else Pass
  }

  /** A review that passed the POST check can be stored without breaking the
      one-review-per-author-and-title constraint. */
  lemma ValidatedReviewKeepsUnique(db: Db, rv: Review)
    requires UniqueAuthorTitle(db.reviews) && KeysIssued(db)
    requires ValidateReview(db.reviews, "POST", rv.author, rv.title) == Pass
    ensures UniqueAuthorTitle(InsertReviewRow(db, rv).reviews)
  {
    var r := InsertReviewRow(db, rv).reviews;
    assert db.nextReview !in db.reviews;
    forall a, b | a in r && b in r && a != b
      ensures !(r[a].author == r[b].author && r[a].title == r[b].title)
    {
      if a == db.nextReview {
        assert r[b] == db.reviews[b];
      } else if b == db.nextReview {
        assert r[a] == db.reviews[a];
      }
    }
  }

  // ---------------------------------------------------------------------
  // Self-service profile

  /** A partial update of one's own record; absent fields stay as they are. */
  datatype ProfilePatch = ProfilePatch(
    username: Option<string>,
    email: Option<string>,
    firstName: Option<string>,
    lastName: Option<string>,
    bio: Option<string>,
    role: Option<string>)

  predicate NameFieldOk(s: Option<string>) {
    s.None? || |s.value| <= NAME_MAX_LENGTH
  }

  function Patched(current: string, update: Option<string>): string {
    if update.Some? then update.value else current
  }

  /** The profile update as the serializer is declared: username and email
      are declared as fields of their own, so listing them as read-only has
      no effect and a patch rewrites them; only the role stays read-only. */
  function ApplyProfilePatchAsDeclared(u: User, p: ProfilePatch): (r: Option<User>)
    ensures r.Some? ==> r.value.role == u.role && r.value.confirmationCode == u.confirmationCode
    ensures r.Some? ==> r.value.isSuperuser == u.isSuperuser
    ensures r.Some? ==>
      && (p.username.Some? ==> r.value.username == p.username.value)
      && (p.email.Some? ==> r.value.email == p.email.value)
      && (p.firstName.Some? ==> r.value.firstName == p.firstName.value)
      && (p.lastName.Some? ==> r.value.lastName == p.lastName.value)
      && (p.bio.Some? ==> r.value.bio == p.bio.value)
    ensures r.Some? <==>
      (p.username.None? || SlugFieldOk(p.username.value, USERNAME_MAX_LENGTH)) &&
      (p.email.None? || EmailFieldOk(p.email.value)) &&
      NameFieldOk(p.firstName) && NameFieldOk(p.lastName)
  {
    if (p.username.Some? && !SlugFieldOk(p.username.value, USERNAME_MAX_LENGTH)) ||
       (p.email.Some? && !EmailFieldOk(p.email.value)) ||
       !NameFieldOk(p.firstName) || !NameFieldOk(p.lastName)
    then None
    else Some(u.(username := Patched(u.username, p.username),
                 email := Patched(u.email, p.email),
                 firstName := Patched(u.firstName, p.firstName),
                 lastName := Patched(u.lastName, p.lastName),
                 bio := Patched(u.bio, p.bio)))
  }

  /** The declared update lets a user change their own email. */
  lemma ProfilePatchAsDeclaredChangesEmail()
    ensures var u := NewUser("alice", "alice@example.org");
            var p := ProfilePatch(None, Some("mallory@example.org"), None, None, None, None);
            ApplyProfilePatchAsDeclared(u, p).Some? && ApplyProfilePatchAsDeclared(u, p).value.email != u.email
  {
  }

  /** The profile update as intended: username, email and role are read-only
      and ignored when sent. */
  function ApplyProfilePatch(u: User, p: ProfilePatch): (r: Option<User>)
    ensures r.Some? <==> NameFieldOk(p.firstName) && NameFieldOk(p.lastName)
  {
    if !NameFieldOk(p.firstName) || !NameFieldOk(p.lastName) then None
    else Some(u.(firstName := Patched(u.firstName, p.firstName),
                 lastName := Patched(u.lastName, p.lastName),
                 bio := Patched(u.bio, p.bio)))
  }

  /** The intended update never touches username, email, role, superuser
      flag or confirmation code, and applies every field it accepts. */
  lemma ProfilePatchKeepsIdentity(u: User, p: ProfilePatch)
    requires ApplyProfilePatch(u, p).Some?
    ensures var v := ApplyProfilePatch(u, p).value;
      && v.username == u.username && v.email == u.email && v.role == u.role
      && v.isSuperuser == u.isSuperuser && v.confirmationCode == u.confirmationCode
      && (p.firstName.Some? ==> v.firstName == p.firstName.value)
      && (p.lastName.Some? ==> v.lastName == p.lastName.value)
      && (p.bio.Some? ==> v.bio == p.bio.value)
      && (p.firstName.None? && p.lastName.None? && p.bio.None? ==> v == u)
  {
  }
}
