/** The records of the review service (users, categories, genres, titles,
    reviews, comments) and the rules the database layer enforces on them:
    field defaults, the role properties, the unique constraints and what
    every foreign key does when the row it points to is deleted. */
module Records {

  datatype Option<+T> = None | Some(value: T)

  /** Pass, or fail with a reason: a validator either returns or raises. */
  datatype Outcome<+E> = Pass | Fail(error: E)

  /** Primary keys; the database hands them out in increasing order. */
  type Id = nat

  const USER: string := "user"
  const ADMIN: string := "admin"
  const MODERATOR: string := "moderator"

  const MIN_SCORE: int := 1
  const MAX_SCORE: int := 10

  /** Stored confirmation code of a user nobody has signed up yet. */
  const DEFAULT_CODE: string := "XXXX"

  /** The closed set of role values the role field offers. */
  predicate IsRoleChoice(role: string) {
    role == USER || role == ADMIN || role == MODERATOR
  }

  /** A user row; `confirmationCode` is nullable in the table. */
  datatype User = User(
    username: string,
    email: string,
    role: string,
    bio: string,
    firstName: string,
    lastName: string,
    confirmationCode: Option<string>,
    isSuperuser: bool)

  predicate IsUser(u: User) { u.role == USER }
  predicate IsAdmin(u: User) { u.role == ADMIN }
  predicate IsModerator(u: User) { u.role == MODERATOR }

  /** A role from the closed set makes exactly one role property hold; any
      other stored string makes none of them hold. */
  lemma ExactlyOneRole(u: User)
    ensures IsRoleChoice(u.role) ==>
      (IsUser(u) || IsAdmin(u) || IsModerator(u)) &&
      !(IsUser(u) && IsAdmin(u)) && !(IsUser(u) && IsModerator(u)) && !(IsAdmin(u) && IsModerator(u))
    ensures !IsRoleChoice(u.role) ==> !IsUser(u) && !IsAdmin(u) && !IsModerator(u)
  {
  }

  /** The row a fresh user gets from the field defaults. */
  function NewUser(username: string, email: string): (u: User)
    ensures u.username == username && u.email == email
    ensures IsUser(u) && !IsAdmin(u) && !IsModerator(u) && !u.isSuperuser
    ensures u.confirmationCode == Some(DEFAULT_CODE)
    ensures u.bio == "" && u.firstName == "" && u.lastName == ""
  {
    User(username, email, USER, "", "", "", Some(DEFAULT_CODE), false)
  }

  /** The text shown for a review or comment: texts at least `limit` long are
      cut to `limit` characters and marked with "...", even when nothing was
      actually cut off. */
  function Shorten(text: string, limit: nat): (r: string)
    ensures |text| < limit ==> r == text
    ensures |text| >= limit ==> |r| == limit + 3 && r[..limit] == text[..limit] && r[limit..] == "..."
  {
    if |text| >= limit then text[..limit] + "..." else text
  }

  /** Shortening an already shortened text changes nothing. */
  lemma ShortenIdempotent(text: string, limit: nat)
    ensures Shorten(Shorten(text, limit), limit) == Shorten(text, limit)
  {
    var r := Shorten(text, limit);
    if |text| >= limit {
      assert r[..limit] + "..." == r;
    }
  }

  predicate ScoreInRange(score: int) {
    MIN_SCORE <= score <= MAX_SCORE
  }

  datatype Category = Category(name: string, slug: string)
  datatype Genre = Genre(name: string, slug: string)

  /** A title: its category may be null; its genres are a many-to-many link. */
  datatype Title = Title(
    name: string,
    year: Option<int>,
    description: Option<string>,
    category: Option<Id>,
    genres: set<Id>)

  datatype Review = Review(author: Id, title: Id, text: string, score: int)
  datatype Comment = Comment(author: Id, review: Id, text: string)

  /** The whole database: one table per record kind, keyed by primary key,
      and the next key of each table rows are inserted into here. */
  datatype Db = Db(
    users: map<Id, User>,
    categories: map<Id, Category>,
    genres: map<Id, Genre>,
    titles: map<Id, Title>,
    reviews: map<Id, Review>,
    comments: map<Id, Comment>,
    nextUser: Id,
    nextReview: Id,
    nextComment: Id)

  /** username and email are each unique in the user table. */
  ghost predicate UniqueUserKeys(users: map<Id, User>) {
    forall a, b :: a in users && b in users && a != b ==>
      users[a].username != users[b].username && users[a].email != users[b].email
  }

  /** Category and genre slugs are unique. */
  ghost predicate UniqueSlugs(categories: map<Id, Category>, genres: map<Id, Genre>) {
    && (forall a, b :: a in categories && b in categories && a != b ==>
          categories[a].slug != categories[b].slug)
    && (forall a, b :: a in genres && b in genres && a != b ==>
          genres[a].slug != genres[b].slug)
  }

  predicate ReviewExists(reviews: map<Id, Review>, author: Id, title: Id) {
    exists k :: k in reviews && reviews[k].author == author && reviews[k].title == title
  }

  /** The unique_author_title constraint: one review per author and title. */
  ghost predicate UniqueAuthorTitle(reviews: map<Id, Review>) {
    forall a, b :: a in reviews && b in reviews && a != b ==>
      !(reviews[a].author == reviews[b].author && reviews[a].title == reviews[b].title)
  }

  /** A title's category, when set, and each of its genres exist. */
  ghost predicate TitleRefsOk(titles: map<Id, Title>, categories: map<Id, Category>, genres: map<Id, Genre>) {
    forall t :: t in titles ==>
      (titles[t].category.Some? ==> titles[t].category.value in categories) &&
      titles[t].genres <= genres.Keys
  }

  /** A review's author and title exist. */
  ghost predicate ReviewRefsOk(reviews: map<Id, Review>, users: map<Id, User>, titles: map<Id, Title>) {
    forall r :: r in reviews ==> reviews[r].author in users && reviews[r].title in titles
  }

  /** A comment's author and review exist. */
  ghost predicate CommentRefsOk(comments: map<Id, Comment>, users: map<Id, User>, reviews: map<Id, Review>) {
    forall c :: c in comments ==> comments[c].author in users && comments[c].review in reviews
  }

  /** Every foreign key points at an existing row. */
  ghost predicate NoDanglingReferences(db: Db) {
    && TitleRefsOk(db.titles, db.categories, db.genres)
    && ReviewRefsOk(db.reviews, db.users, db.titles)
    && CommentRefsOk(db.comments, db.users, db.reviews)
  }

  ghost predicate KeysBelow<V>(table: map<Id, V>, next: Id) {
    forall k :: k in table ==> k < next
  }

  /** Inserting under the next key keeps every key below the next one. */
  lemma KeysBelowAfterInsert<V>(table: map<Id, V>, next: Id, v: V)
    requires KeysBelow(table, next)
    ensures next !in table && KeysBelow(table[next := v], next + 1)
  {
  }

  /** Keys already handed out lie below the next key of their table. */
  ghost predicate KeysIssued(db: Db) {
    KeysBelow(db.users, db.nextUser) && KeysBelow(db.reviews, db.nextReview) &&
    KeysBelow(db.comments, db.nextComment)
  }

  /** Everything the database itself enforces. */
  ghost predicate Consistent(db: Db) {
    UniqueUserKeys(db.users) && UniqueSlugs(db.categories, db.genres) && UniqueAuthorTitle(db.reviews) &&
    NoDanglingReferences(db) && KeysIssued(db)
  }

  /** Stored scores lie in [1, 10]. The column itself accepts any small
      integer; the range is kept by the validators on the way in. */
  ghost predicate ScoresInRange(reviews: map<Id, Review>) {
    forall k :: k in reviews ==> ScoreInRange(reviews[k].score)
  }

  // ---------------------------------------------------------------------
  // Inserting and updating rows

  /** The user row does not clash with a stored username or email. */
  predicate UserFits(users: map<Id, User>, u: User) {
    forall k :: k in users ==> users[k].username != u.username && users[k].email != u.email
  }

  function InsertUserRow(db: Db, u: User): (r: Db)
    ensures r.users == db.users[db.nextUser := u] && r.nextUser == db.nextUser + 1
    ensures r.(users := db.users, nextUser := db.nextUser) == db
  {
    db.(users := db.users[db.nextUser := u], nextUser := db.nextUser + 1)
  }

  /** A user the table accepts adds exactly one row, under a fresh key, and
      the database stays consistent. */
  lemma InsertUserKeepsConsistent(db: Db, u: User)
    requires Consistent(db) && UserFits(db.users, u)
    ensures db.nextUser !in db.users
    ensures |InsertUserRow(db, u).users| == |db.users| + 1
    ensures Consistent(InsertUserRow(db, u))
  {
    KeysBelowAfterInsert(db.users, db.nextUser, u);
    var r := InsertUserRow(db, u);
    forall a, b | a in r.users && b in r.users && a != b
      ensures r.users[a].username != r.users[b].username && r.users[a].email != r.users[b].email
    {
      if a == db.nextUser {
        assert r.users[b] == db.users[b];
      } else if b == db.nextUser {
        assert r.users[a] == db.users[a];
      }
    }
  }

  /** Saving a new confirmation code on the user stored under `id`. */
  function SetCodeRow(db: Db, id: Id, code: string): (r: Db)
    requires id in db.users
    ensures r.users.Keys == db.users.Keys
    ensures r.users[id] == db.users[id].(confirmationCode := Some(code))
    ensures forall k :: k in db.users && k != id ==> r.users[k] == db.users[k]
    ensures r.(users := db.users) == db
  {
    db.(users := db.users[id := db.users[id].(confirmationCode := Some(code))])
  }

  lemma SetCodeKeepsConsistent(db: Db, id: Id, code: string)
    requires Consistent(db) && id in db.users
    ensures Consistent(SetCodeRow(db, id, code))
  {
    var r := SetCodeRow(db, id, code);
    forall a, b | a in r.users && b in r.users && a != b
      ensures r.users[a].username != r.users[b].username && r.users[a].email != r.users[b].email
    {
      assert r.users[a].username == db.users[a].username && r.users[a].email == db.users[a].email;
      assert r.users[b].username == db.users[b].username && r.users[b].email == db.users[b].email;
    }
  }

  /** What the database checks before it stores a review: both foreign keys
      exist and the (author, title) pair is not taken. */
  predicate ReviewFits(db: Db, rv: Review) {
    rv.author in db.users && rv.title in db.titles && !ReviewExists(db.reviews, rv.author, rv.title)
  }

  function InsertReviewRow(db: Db, rv: Review): (r: Db)
    ensures r.reviews == db.reviews[db.nextReview := rv] && r.nextReview == db.nextReview + 1
    ensures r.(reviews := db.reviews, nextReview := db.nextReview) == db
  {
    db.(reviews := db.reviews[db.nextReview := rv], nextReview := db.nextReview + 1)
  }

  lemma InsertReviewKeepsConsistent(db: Db, rv: Review)
    requires Consistent(db) && ReviewFits(db, rv)
    ensures db.nextReview !in db.reviews
    ensures Consistent(InsertReviewRow(db, rv))
  {
    KeysBelowAfterInsert(db.reviews, db.nextReview, rv);
    var r := InsertReviewRow(db, rv);
    forall a, b | a in r.reviews && b in r.reviews && a != b
      ensures !(r.reviews[a].author == r.reviews[b].author && r.reviews[a].title == r.reviews[b].title)
    {
      if a == db.nextReview {
        assert r.reviews[b] == db.reviews[b];
      } else if b == db.nextReview {
        assert r.reviews[a] == db.reviews[a];
      }
    }
  }

  predicate CommentFits(db: Db, c: Comment) {
    c.author in db.users && c.review in db.reviews
  }

  function InsertCommentRow(db: Db, c: Comment): (r: Db)
    ensures r.comments == db.comments[db.nextComment := c] && r.nextComment == db.nextComment + 1
    ensures r.users == db.users && r.categories == db.categories && r.genres == db.genres
    ensures r.titles == db.titles && r.reviews == db.reviews
    ensures r.nextUser == db.nextUser && r.nextReview == db.nextReview
  {
    db.(comments := db.comments[db.nextComment := c], nextComment := db.nextComment + 1)
  }

  lemma InsertCommentKeepsConsistent(db: Db, c: Comment)
    requires Consistent(db) && CommentFits(db, c)
    ensures db.nextComment !in db.comments
    ensures Consistent(InsertCommentRow(db, c))
  {
    KeysBelowAfterInsert(db.comments, db.nextComment, c);
    var r := InsertCommentRow(db, c);
    assert CommentRefsOk(r.comments, db.users, db.reviews);
  }

  // ---------------------------------------------------------------------
  // Deleting rows: CASCADE and SET_NULL

  /** Deleting a review also deletes the comments on it. */
  function DeleteReviewRows(db: Db, id: Id): (r: Db)
    ensures r.reviews.Keys == db.reviews.Keys - {id}
    ensures forall k :: k in r.comments <==> k in db.comments && db.comments[k].review != id
    ensures forall k :: k in r.reviews ==> r.reviews[k] == db.reviews[k]
    ensures forall k :: k in r.comments ==> r.comments[k] == db.comments[k]
    ensures r.(reviews := db.reviews, comments := db.comments) == db
  {
    db.(reviews := db.reviews - {id},
        comments := map k | k in db.comments && db.comments[k].review != id :: db.comments[k])
  }

  /** Deleting a title deletes its reviews and, through them, their comments. */
  function DeleteTitleRows(db: Db, id: Id): (r: Db)
    ensures r.titles.Keys == db.titles.Keys - {id}
    ensures forall k :: k in r.reviews <==> k in db.reviews && db.reviews[k].title != id
    ensures forall k :: k in r.comments <==> k in db.comments && db.comments[k].review in r.reviews
    ensures forall k :: k in r.titles ==> r.titles[k] == db.titles[k]
    ensures forall k :: k in r.reviews ==> r.reviews[k] == db.reviews[k]
    ensures forall k :: k in r.comments ==> r.comments[k] == db.comments[k]
    ensures r.(titles := db.titles, reviews := db.reviews, comments := db.comments) == db
  {
    var reviews := map k | k in db.reviews && db.reviews[k].title != id :: db.reviews[k];
    db.(titles := db.titles - {id},
        reviews := reviews,
        comments := map k | k in db.comments && db.comments[k].review in reviews :: db.comments[k])
  }

  /** Deleting a user deletes the reviews and comments they wrote, and the
      comments others left on those reviews. */
  function DeleteUserRows(db: Db, id: Id): (r: Db)
    ensures r.users.Keys == db.users.Keys - {id}
    ensures forall k :: k in r.reviews <==> k in db.reviews && db.reviews[k].author != id
    ensures forall k :: k in r.comments <==>
      k in db.comments && db.comments[k].author != id && db.comments[k].review in r.reviews
    ensures forall k :: k in r.users ==> r.users[k] == db.users[k]
    ensures forall k :: k in r.reviews ==> r.reviews[k] == db.reviews[k]
    ensures forall k :: k in r.comments ==> r.comments[k] == db.comments[k]
    ensures r.(users := db.users, reviews := db.reviews, comments := db.comments) == db
  {
    var reviews := map k | k in db.reviews && db.reviews[k].author != id :: db.reviews[k];
    db.(users := db.users - {id},
        reviews := reviews,
        comments := map k | k in db.comments && db.comments[k].author != id && db.comments[k].review in reviews
                          :: db.comments[k])
  }

  /** Deleting a category keeps every title and sets the category of the
      titles that had it to null. */
  function DeleteCategoryRows(db: Db, id: Id): (r: Db)
    ensures r.categories.Keys == db.categories.Keys - {id}
    ensures r.titles.Keys == db.titles.Keys
    ensures forall k :: k in r.titles ==>
      r.titles[k] == if db.titles[k].category == Some(id) then db.titles[k].(category := None) else db.titles[k]
    ensures forall k :: k in r.categories ==> r.categories[k] == db.categories[k]
    ensures r.(categories := db.categories, titles := db.titles) == db
  {
    db.(categories := db.categories - {id},
        titles := map k | k in db.titles ::
          if db.titles[k].category == Some(id) then db.titles[k].(category := None) else db.titles[k])
  }

  /** Deleting a genre keeps every title and drops the genre from their links. */
  function DeleteGenreRows(db: Db, id: Id): (r: Db)
    ensures r.genres.Keys == db.genres.Keys - {id}
    ensures r.titles.Keys == db.titles.Keys
    ensures forall k :: k in r.titles ==> r.titles[k] == db.titles[k].(genres := db.titles[k].genres - {id})
    ensures forall k :: k in r.genres ==> r.genres[k] == db.genres[k]
    ensures r.(genres := db.genres, titles := db.titles) == db
  {
    db.(genres := db.genres - {id},
        titles := map k | k in db.titles :: db.titles[k].(genres := db.titles[k].genres - {id}))
  }

  lemma DeleteReviewKeepsConsistent(db: Db, id: Id)
    requires Consistent(db)
    ensures Consistent(DeleteReviewRows(db, id))
    ensures ScoresInRange(db.reviews) ==> ScoresInRange(DeleteReviewRows(db, id).reviews)
  {
  }

  lemma DeleteTitleKeepsConsistent(db: Db, id: Id)
    requires Consistent(db)
    ensures Consistent(DeleteTitleRows(db, id))
    ensures ScoresInRange(db.reviews) ==> ScoresInRange(DeleteTitleRows(db, id).reviews)
  {
  }

  lemma DeleteUserKeepsConsistent(db: Db, id: Id)
    requires Consistent(db)
    ensures Consistent(DeleteUserRows(db, id))
    ensures ScoresInRange(db.reviews) ==> ScoresInRange(DeleteUserRows(db, id).reviews)
  {
    var r := DeleteUserRows(db, id);
    assert UniqueUserKeys(r.users) && UniqueAuthorTitle(r.reviews) && KeysIssued(r);
    forall k | k in r.reviews
      ensures r.reviews[k].author in r.users && r.reviews[k].title in r.titles
    {
      assert r.reviews[k] == db.reviews[k];
    }
    forall k | k in r.comments
      ensures r.comments[k].author in r.users && r.comments[k].review in r.reviews
    {
      assert r.comments[k] == db.comments[k];
    }
    assert NoDanglingReferences(r);
  }

  lemma DeleteCategoryKeepsConsistent(db: Db, id: Id)
    requires Consistent(db)
    ensures Consistent(DeleteCategoryRows(db, id))
    ensures forall k :: k in DeleteCategoryRows(db, id).titles ==> DeleteCategoryRows(db, id).titles[k].category != Some(id)
  {
  }

  lemma DeleteGenreKeepsConsistent(db: Db, id: Id)
    requires Consistent(db)
    ensures Consistent(DeleteGenreRows(db, id))
  {
  }

  // ---------------------------------------------------------------------
  // The database as a mutable object

  /** The database the request handlers read and write. Each table is a map
      that the operations below reassign; `State` is the value they stand for. */
  class Store {
    var users: map<Id, User>
    var categories: map<Id, Category>
    var genres: map<Id, Genre>
    var titles: map<Id, Title>
    var reviews: map<Id, Review>
    var comments: map<Id, Comment>
    var nextUser: Id
    var nextReview: Id
    var nextComment: Id

    function State(): Db
      reads this
    {
      Db(users, categories, genres, titles, reviews, comments, nextUser, nextReview, nextComment)
    }

    ghost predicate Valid()
      reads this
    {
      Consistent(State())
    }

    constructor ()
      ensures Valid()
      ensures State() == Db(map[], map[], map[], map[], map[], map[], 0, 0, 0)
    {
      users, categories, genres, titles, reviews, comments := map[], map[], map[], map[], map[], map[];
      nextUser, nextReview, nextComment := 0, 0, 0;
    }

    /** INSERT of a user row; a unique clash is the IntegrityError path. */
    method InsertUser(u: User) returns (id: Option<Id>)
      requires Valid()
      modifies this
      ensures Valid()
      ensures id.Some? <==> UserFits(old(users), u)
      ensures id.Some? ==> id.value == old(nextUser) && id.value !in old(users) &&
                           State() == InsertUserRow(old(State()), u)
      ensures id.None? ==> State() == old(State())
    {
      if UserFits(users, u) {
        InsertUserKeepsConsistent(State(), u);
        id := Some(nextUser);
        var r := InsertUserRow(State(), u);
        users, nextUser := r.users, r.nextUser;
        assert State() == r;
      } else {
        id := None;
      }
    }

    /** `user.confirmation_code = code; user.save()` on a stored user. */
    method SetConfirmationCode(id: Id, code: string)
      requires Valid() && id in users
      modifies this
      ensures Valid()
      ensures State() == SetCodeRow(old(State()), id, code)
    {
      SetCodeKeepsConsistent(State(), id, code);
      users := SetCodeRow(State(), id, code).users;
    }

    /** INSERT of a review row; a missing foreign key or a taken
        (author, title) pair is the IntegrityError path. */
    method InsertReview(rv: Review) returns (id: Option<Id>)
      requires Valid()
      modifies this
      ensures Valid()
      ensures id.Some? <==> ReviewFits(old(State()), rv)
      ensures id.Some? ==> id.value == old(nextReview) && id.value !in old(reviews) &&
                           State() == InsertReviewRow(old(State()), rv)
      ensures id.None? ==> State() == old(State())
    {
      if ReviewFits(State(), rv) {
        InsertReviewKeepsConsistent(State(), rv);
        id := Some(nextReview);
        var r := InsertReviewRow(State(), rv);
        reviews, nextReview := r.reviews, r.nextReview;
        assert State() == r;
      } else {
        id := None;
      }
    }

    /** INSERT of a comment row; a missing foreign key is the IntegrityError path. */
    method InsertComment(c: Comment) returns (id: Option<Id>)
      requires Valid()
      modifies this
      ensures Valid()
      ensures id.Some? <==> CommentFits(old(State()), c)
      ensures id.Some? ==> id.value == old(nextComment) && id.value !in old(comments) &&
                           State() == InsertCommentRow(old(State()), c)
      ensures id.None? ==> State() == old(State())
    {
      if CommentFits(State(), c) {
        InsertCommentKeepsConsistent(State(), c);
        id := Some(nextComment);
        var r := InsertCommentRow(State(), c);
        comments, nextComment := r.comments, r.nextComment;
        assert State() == r;
      } else {
        id := None;
      }
    }

    method DeleteReview(id: Id)
      requires Valid()
      modifies this
      ensures Valid()
      ensures State() == DeleteReviewRows(old(State()), id)
    {
      DeleteReviewKeepsConsistent(State(), id);
      var r := DeleteReviewRows(State(), id);
      reviews, comments := r.reviews, r.comments;
      assert State() == r;
    }

    method DeleteTitle(id: Id)
      requires Valid()
      modifies this
      ensures Valid()
      ensures State() == DeleteTitleRows(old(State()), id)
    {
      DeleteTitleKeepsConsistent(State(), id);
      var r := DeleteTitleRows(State(), id);
      titles, reviews, comments := r.titles, r.reviews, r.comments;
      assert State() == r;
    }

    method DeleteUser(id: Id)
      requires Valid()
      modifies this
      ensures Valid()
      ensures State() == DeleteUserRows(old(State()), id)
    {
      DeleteUserKeepsConsistent(State(), id);
      var r := DeleteUserRows(State(), id);
      users, reviews, comments := r.users, r.reviews, r.comments;
      assert State() == r;
    }

    method DeleteCategory(id: Id)
      requires Valid()
      modifies this
      ensures Valid()
      ensures State() == DeleteCategoryRows(old(State()), id)
    {
      DeleteCategoryKeepsConsistent(State(), id);
      var r := DeleteCategoryRows(State(), id);
      categories, titles := r.categories, r.titles;
      assert State() == r;
    }

    method DeleteGenre(id: Id)
      requires Valid()
      modifies this
      ensures Valid()
      ensures State() == DeleteGenreRows(old(State()), id)
    {
      DeleteGenreKeepsConsistent(State(), id);
      var r := DeleteGenreRows(State(), id);
      genres, titles := r.genres, r.titles;
      assert State() == r;
    }
  }
}
