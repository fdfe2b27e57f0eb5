/** The request handlers that carry logic of their own: sign-up, token
    exchange, and the nested creation of reviews and comments. Each works on
    the database object; the confirmation code that sign-up mails out is
    passed in, and the token is represented by the key of the user it is
    minted for. */
module Views {
  import opened Records
  import opened Permissions
  import opened Serializers

  datatype SignUpResponse = SignedUp(username: string, email: string) | SignUpRejected(reason: SignUpError)

  datatype ActivationResponse = Token(user: Id) | ActivationRejected | UserNotFound

  datatype CreateResponse = Created(id: Id) | NotAuthenticated | Invalid(reason: ReviewError) | NotFound

  /** The authentication layer only produces users read from the user table. */
  ghost predicate Authentic(db: Db, caller: Caller) {
    caller.SignedIn? ==> caller.id in db.users && db.users[caller.id] == caller.user
  }

  /** Sign-up: validate, fetch the user stored with exactly this username and
      email or create one (a clash on either key refuses the request), then
      store the new confirmation code on it. The response echoes the
      validated username and email and never the code. */
  method SignUp(store: Store, username: string, email: string, code: string) returns (res: SignUpResponse)
    requires store.Valid()
    modifies store
    ensures store.Valid()
    ensures res.SignedUp? ==> res.username == username && res.email == email
    ensures res.SignUpRejected? ==> store.State() == old(store.State())
    ensures ValidateSignUp(old(store.users), username, email).Fail? ==>
      res == SignUpRejected(ValidateSignUp(old(store.users), username, email).error)
    ensures ValidateSignUp(old(store.users), username, email) == Pass ==>
      if UsernameTaken(old(store.users), username) then
        res.SignedUp? &&
        exists k :: k in old(store.users) && old(store.users)[k].username == username &&
                    old(store.users)[k].email == email &&
                    store.State() == SetCodeRow(old(store.State()), k, code)
      else if EmailTaken(old(store.users), email) then
        res == SignUpRejected(UsernameOrEmailTaken)
      else
        res.SignedUp? && old(store.nextUser) !in old(store.users) &&
        store.State() == SetCodeRow(InsertUserRow(old(store.State()), NewUser(username, email)),
                                    old(store.nextUser), code)
  {
    var verdict := ValidateSignUp(store.users, username, email);
    if verdict.Fail? {
      return SignUpRejected(verdict.error);
    }
    var id: Id;
    if exists k :: k in store.users && store.users[k].username == username && store.users[k].email == email {
      id :| id in store.users && store.users[id].username == username && store.users[id].email == email;
    } else {
      var created := store.InsertUser(NewUser(username, email));
      if created.None? {
        return SignUpRejected(UsernameOrEmailTaken);
      }
      id := created.value;
    }
    store.SetConfirmationCode(id, code);
    res := SignedUp(username, email);
  }

  /** Token exchange: a read-only check of the username and the code; the
      token is minted for the user found. */
  method Activation(store: Store, username: string, code: string) returns (res: ActivationResponse)
    requires store.Valid()
    ensures res == UserNotFound <==> ValidateActivation(store.users, username, code) == UnknownUser
    ensures res == ActivationRejected <==> ValidateActivation(store.users, username, code) == Reject
    ensures res.Token? ==> res.user in store.users && store.users[res.user].username == username &&
                           store.users[res.user].confirmationCode == Some(code)
  {
    var verdict := ValidateActivation(store.users, username, code);
    match verdict {
      case UnknownUser => res := UserNotFound;
      case Reject => res := ActivationRejected;
      case Accept =>
        var k :| k in store.users && store.users[k].username == username;
        res := Token(k);
    }
  }

  /** The title named in the URL, or not-found. */
  method GetTitle(store: Store, titleId: Id) returns (r: Option<Title>)
    ensures r.Some? <==> titleId in store.titles
    ensures r.Some? ==> r.value == store.titles[titleId]
  {
    if titleId in store.titles {
      r := Some(store.titles[titleId]);
    } else {
      r := None;
    }
  }

  /** The review named in the URL, provided it belongs to the title named in
      the URL; not-found otherwise. */
  method GetReview(store: Store, titleId: Id, reviewId: Id) returns (r: Option<Review>)
    ensures r.Some? <==> reviewId in store.reviews && store.reviews[reviewId].title == titleId
    ensures r.Some? ==> r.value == store.reviews[reviewId]
  {
    if reviewId in store.reviews && store.reviews[reviewId].title == titleId {
      r := Some(store.reviews[reviewId]);
    } else {
      r := None;
    }
  }

  /** POST of a review under a title: the request-level permission, then the
      serializer's score and duplicate checks, then the title lookup; the
      review is stored bound to the URL title and to the sender. */
  method CreateReview(store: Store, caller: Caller, titleId: Id, score: int, text: string) returns (res: CreateResponse)
    requires store.Valid() && ScoresInRange(store.reviews)
    requires Authentic(store.State(), caller)
    modifies store
    ensures store.Valid() && ScoresInRange(store.reviews)
    ensures caller.Anonymous? ==> res == NotAuthenticated
    ensures caller.SignedIn? ==>
      res == (if ValidateScore(score).Fail? then Invalid(ScoreOutOfRange)
              else if ValidateReview(old(store.reviews), "POST", caller.id, titleId).Fail? then Invalid(DuplicateReview)
              else if titleId !in old(store.titles) then NotFound
              else Created(old(store.nextReview)))
    ensures res.Created? ==>
      res.id !in old(store.reviews) &&
      store.State() == InsertReviewRow(old(store.State()), Review(caller.id, titleId, text, score))
    ensures !res.Created? ==> store.State() == old(store.State())
  {
    if !AuthorOrStaffHasPermission(Request("POST", caller)) {
      return NotAuthenticated;
    }
    var scoreOk := ValidateScore(score);
    if scoreOk.Fail? {
      return Invalid(scoreOk.error);
    }
    var unique := ValidateReview(store.reviews, "POST", caller.id, titleId);
    if unique.Fail? {
      return Invalid(unique.error);
    }
    var title := GetTitle(store, titleId);
    if title.None? {
      return NotFound;
    }
    var id := store.InsertReview(Review(caller.id, titleId, text, score));
    assert id.Some?;
    res := Created(id.value);
  }

  /** POST of a comment under a review: the request-level permission, then
      the lookup of a review with that key under that title; the comment is
      stored bound to that review and to the sender. */
  method CreateComment(store: Store, caller: Caller, titleId: Id, reviewId: Id, text: string)
    returns (res: CreateResponse)
    requires store.Valid() && Authentic(store.State(), caller)
    modifies store
    ensures store.Valid()
    ensures store.reviews == old(store.reviews)
    ensures caller.Anonymous? ==> res == NotAuthenticated
    ensures caller.SignedIn? ==>
      res == (if reviewId in old(store.reviews) && old(store.reviews)[reviewId].title == titleId
              then Created(old(store.nextComment))
              else NotFound)
    ensures res.Created? ==>
      res.id !in old(store.comments) &&
      store.State() == InsertCommentRow(old(store.State()), Comment(caller.id, reviewId, text))
    ensures !res.Created? ==> store.State() == old(store.State())
  {
    if !AuthorOrStaffHasPermission(Request("POST", caller)) {
      return NotAuthenticated;
    }
    var review := GetReview(store, titleId, reviewId);
    if review.None? {
      return NotFound;
    }
    var id := store.InsertComment(Comment(caller.id, reviewId, text));
    assert id.Some?;
    res := Created(id.value);
  }

  /** A sign-up with a username and an email nobody has adds exactly one
      user under a fresh key: a plain user holding the new code. */
  lemma FreshSignUpAddsOneUser(db: Db, username: string, email: string, code: string)
    requires KeysIssued(db)
    ensures var r := SetCodeRow(InsertUserRow(db, NewUser(username, email)), db.nextUser, code);
      && db.nextUser !in db.users && r.users.Keys == db.users.Keys + {db.nextUser}
      && |r.users| == |db.users| + 1
      && r.users[db.nextUser].username == username && r.users[db.nextUser].email == email
      && r.users[db.nextUser].confirmationCode == Some(code) && IsUser(r.users[db.nextUser])
  {
    var r := SetCodeRow(InsertUserRow(db, NewUser(username, email)), db.nextUser, code);
    assert db.nextUser !in db.users;
    assert r.users.Keys == db.users.Keys + {db.nextUser};
  }

  /** The same sign-up leaves every other user and every other table as it
      was. */
  lemma FreshSignUpKeepsOtherRows(db: Db, username: string, email: string, code: string)
    requires KeysIssued(db)
    ensures var r := SetCodeRow(InsertUserRow(db, NewUser(username, email)), db.nextUser, code);
      && (forall k :: k in db.users ==> r.users[k] == db.users[k])
      && r.(users := db.users, nextUser := db.nextUser) == db
  {
    assert db.nextUser !in db.users;
  }

  /** Storing a code on one user leaves the token exchange of every user with
      another username as it was: only that user's next sign-up replaces the
      code a user can exchange. */
  lemma CodeSurvivesOtherSignUps(db: Db, other: Id, newCode: string, username: string, code: string)
    requires other in db.users && db.users[other].username != username
    ensures ValidateActivation(SetCodeRow(db, other, newCode).users, username, code) ==
            ValidateActivation(db.users, username, code)
  {
    var users := SetCodeRow(db, other, newCode).users;
    assert UsernameTaken(users, username) == UsernameTaken(db.users, username) by {
      if UsernameTaken(db.users, username) {
        var k :| k in db.users && db.users[k].username == username;
        assert users[k].username == username;
      }
      if UsernameTaken(users, username) {
        var k :| k in users && users[k].username == username;
        assert db.users[k].username == username;
      }
    }
    if exists k :: k in db.users && db.users[k].username == username && db.users[k].confirmationCode != Some(code) {
      var k :| k in db.users && db.users[k].username == username && db.users[k].confirmationCode != Some(code);
      assert users[k] == db.users[k];
    }
  }

  /** A fresh sign-up under another username leaves the token exchange of
      every other username as it was: together with CodeSurvivesOtherSignUps,
      a user's code stays valid until that user signs up again. */
  lemma CodeSurvivesFreshSignUps(db: Db, u: string, e: string, newCode: string, username: string, code: string)
    requires KeysIssued(db) && u != username
    ensures ValidateActivation(SetCodeRow(InsertUserRow(db, NewUser(u, e)), db.nextUser, newCode).users, username, code) ==
            ValidateActivation(db.users, username, code)
  {
    var mid := InsertUserRow(db, NewUser(u, e));
    assert db.nextUser !in db.users;
    assert UsernameTaken(mid.users, username) == UsernameTaken(db.users, username) by {
      if UsernameTaken(db.users, username) {
        var k :| k in db.users && db.users[k].username == username;
        assert mid.users[k].username == username;
      }
      if UsernameTaken(mid.users, username) {
        var k :| k in mid.users && mid.users[k].username == username;
        assert k != db.nextUser && db.users[k].username == username;
      }
    }
    if exists k :: k in db.users && db.users[k].username == username && db.users[k].confirmationCode != Some(code) {
      var k :| k in db.users && db.users[k].username == username && db.users[k].confirmationCode != Some(code);
      assert mid.users[k] == db.users[k];
    }
    if exists k :: k in mid.users && mid.users[k].username == username && mid.users[k].confirmationCode != Some(code) {
      var k :| k in mid.users && mid.users[k].username == username && mid.users[k].confirmationCode != Some(code);
      assert k != db.nextUser && db.users[k] == mid.users[k];
    }
    assert ValidateActivation(mid.users, username, code) == ValidateActivation(db.users, username, code);
    CodeSurvivesOtherSignUps(mid, db.nextUser, newCode, username, code);
  }
}
