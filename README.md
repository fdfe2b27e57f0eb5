# Review service decision logic, modelled in Dafny

The service is a REST API for works (titles), their categories and genres,
user reviews with a score, comments on reviews, and user accounts with roles
and an email-confirmation sign-up. Persistence, routing and serialisation
belong to the web framework. This project models the logic the repository
adds on top of the framework:

- `permissions.dfy` (module `Permissions`): every permission class as a
  predicate of the request method and the caller (anonymous or a stored
  user with role, superuser flag and key), and the object-level checks as
  predicates of the object's owner. The framework only asks an object-level
  question after the same class's request-level check has passed. The
  object-level predicates that read `is_admin` or `is_moderator` (which the
  anonymous user does not have) therefore require that check. The total
  `...Allows` predicates combine both checks.
- `serializers.dfy` (module `Serializers`): the sign-up checks (slug username
  of at most 150 characters, the reserved name `me` in any case, email of at
  most 254 characters, a stored username only with its stored email). It
  also holds the token-exchange checks (unknown user is not-found before the
  code is looked at, then exact code equality), the score range and
  one-review-per-title check for reviews, and the self-service profile
  update.
- `validators.dfy` (module `Validators`): the release-year check, with the
  current year as a parameter.
- `records.dfy` (module `Records`): the records and their defaults, the role
  properties, the `__str__` shortening rule, the database as a value `Db`
  with the constraints it enforces (`Consistent`: unique username, email and
  slugs, unique (author, title) review pair, no dangling foreign key), the
  row operations including every `on_delete` cascade and set-null, and a
  class `Store` whose methods reassign its tables as those operations say.
- `views.dfy` (module `Views`): sign-up (get-or-create on username and email,
  then store the new confirmation code), token exchange (read-only), and
  nested creation of reviews and comments bound to the URL title or review
  and to the sender. These are methods on a `Store` whose contracts give the
  response and the new database state and keep `Consistent`.

A wrong confirmation code is rejected with a validation error (400), as
api_yamdb/api/serializers.py:61-64 raises it. A user the code was never set for, whatever their role (an
account an admin created, say), keeps the default code `XXXX`, and the token
exchange accepts it (`Serializers.DefaultCodeIsAccepted`).

## Model

| member | source | states |
|---|---|---|
| Records.ExactlyOneRole | api_yamdb/reviews/models.py:91-101 | a role from the closed set {user, admin, moderator} makes exactly one of `is_user`, `is_admin`, `is_moderator` true; any other stored role makes none true |
| Records.NewUser | api_yamdb/reviews/models.py:57-86 | a fresh user row has role `user`, confirmation code `XXXX`, empty bio and names, and is not a superuser |
| Records.Shorten | api_yamdb/reviews/models.py:31-37 | a text shorter than the limit is shown unchanged; a text at least the limit long (equal length included) becomes its first `limit` characters plus `...`, `limit + 3` long |
| Records.ShortenIdempotent | api_yamdb/reviews/models.py:31-37 | shortening an already shortened text gives the same text |
| Records.InsertUserKeepsConsistent | api_yamdb/reviews/models.py:43-56 | inserting a user that clashes with no stored username or email adds exactly one row under a fresh key and keeps every constraint |
| Records.SetCodeKeepsConsistent | api_yamdb/reviews/models.py:80-86 | saving a new confirmation code on a stored user keeps every constraint |
| Records.InsertReviewKeepsConsistent | api_yamdb/reviews/models.py:229-236 | a review whose author and title exist and whose (author, title) pair is free is stored under a fresh key and the unique pair constraint still holds |
| Records.InsertCommentKeepsConsistent | api_yamdb/reviews/models.py:243-254 | a comment whose author and review exist is stored under a fresh key and the constraints still hold |
| Records.DeleteReviewRows | api_yamdb/reviews/models.py:249-254 | deleting a review removes exactly that review and the comments on it; every other row is unchanged |
| Records.DeleteTitleRows | api_yamdb/reviews/models.py:205-210 | deleting a title removes it, exactly its reviews, and exactly the comments on those reviews; nothing else changes |
| Records.DeleteUserRows | api_yamdb/reviews/models.py:199-204 | deleting a user removes exactly the reviews they wrote and the comments they wrote or that sat on removed reviews; nothing else changes |
| Records.DeleteCategoryRows | api_yamdb/reviews/models.py:168-175 | deleting a category removes no title; titles that had it get a null category, all other fields unchanged |
| Records.DeleteGenreRows | api_yamdb/reviews/models.py:182-186 | deleting a genre removes no title; it is dropped from every title's genre links |
| Records.DeleteReviewKeepsConsistent | api_yamdb/reviews/models.py:249-254 | after deleting a review no comment refers to a missing review, and the scores stay in range |
| Records.DeleteTitleKeepsConsistent | api_yamdb/reviews/models.py:205-210 | after deleting a title no review or comment is left dangling |
| Records.DeleteUserKeepsConsistent | api_yamdb/reviews/models.py:199-204 | after deleting a user no review or comment refers to a missing user or review |
| Records.DeleteCategoryKeepsConsistent | api_yamdb/reviews/models.py:168-175 | after deleting a category no title refers to it and all constraints hold |
| Records.DeleteGenreKeepsConsistent | api_yamdb/reviews/models.py:182-186 | after deleting a genre no title links to it and all constraints hold |
| Records.Store.InsertUser | api_yamdb/reviews/models.py:43-56 | inserts the user exactly when neither username nor email is taken, otherwise refuses and changes nothing |
| Records.Store.SetConfirmationCode | api_yamdb/reviews/models.py:80-86 | replaces the stored code of one user and nothing else |
| Records.Store.InsertReview | api_yamdb/reviews/models.py:229-236 | inserts the review exactly when its foreign keys exist and its (author, title) pair is free, otherwise refuses and changes nothing |
| Records.Store.InsertComment | api_yamdb/reviews/models.py:243-254 | inserts the comment exactly when its author and review exist |
| Records.Store.DeleteReview | api_yamdb/reviews/models.py:249-254 | the database becomes `DeleteReviewRows` of the old one and stays consistent |
| Records.Store.DeleteTitle | api_yamdb/reviews/models.py:205-210 | the database becomes `DeleteTitleRows` of the old one and stays consistent |
| Records.Store.DeleteUser | api_yamdb/reviews/models.py:199-204 | the database becomes `DeleteUserRows` of the old one and stays consistent |
| Records.Store.DeleteCategory | api_yamdb/reviews/models.py:168-175 | the database becomes `DeleteCategoryRows` of the old one and stays consistent |
| Records.Store.DeleteGenre | api_yamdb/reviews/models.py:182-186 | the database becomes `DeleteGenreRows` of the old one and stays consistent |
| Validators.CheckFutureYear | api_yamdb/reviews/validators.py:5-15 | a rejection names the value and the current year it was compared with |
| Validators.CheckTitleYear | api_yamdb/reviews/models.py:162-167 | a title's year is refused iff it is given and lies after the current year, and the refusal carries that year; a null year passes |
| Validators.RejectsExactlyFutureYears | api_yamdb/reviews/validators.py:11-15 | a year is rejected iff it is strictly after the current year |
| Validators.CurrentYearAccepted | api_yamdb/reviews/validators.py:12 | the current year itself is accepted |
| Validators.NoLowerBound | api_yamdb/reviews/validators.py:5-15 | year zero and negative years are accepted |
| Validators.AcceptedYearsDownwardClosed | api_yamdb/reviews/validators.py:12 | every year before an accepted year is accepted |
| Permissions.StaffOrReadOnlyRule | api_yamdb/api/permissions.py:51-55 | every safe-method request is allowed, anonymous too; a write is allowed iff the sender is an authenticated admin; a superuser without the admin role is refused |
| Permissions.ChangeAdminOnlyRule | api_yamdb/api/permissions.py:41-45 | allowed iff authenticated and superuser or admin, whatever the HTTP method |
| Permissions.AuthorOrStaffRequestRule | api_yamdb/api/permissions.py:61-65 | the request-level check refuses exactly the anonymous non-safe requests |
| Permissions.AuthorOrStaffObjectRule | api_yamdb/api/permissions.py:67-73 | on a review or comment, reads are allowed to all; a write is allowed iff the sender is the author, a moderator or an admin; a plain user who is not the author is refused |
| Permissions.OwnRecordRule | api_yamdb/api/permissions.py:4-35 | IamOrReadOnly allows a user record to a superuser, an admin or its owner; AuthReadOnly only to its owner |
| Permissions.AdminOrReadOnlyRefusesReads | api_yamdb/api/permissions.py:19-23 | allowed iff authenticated admin or superuser, so safe methods are refused to everyone else despite the name |
| Permissions.PromotionNeverRevokes | api_yamdb/api/permissions.py:38-73 | raising a plain user to admin never turns an allowed StaffOrReadOnly, ChangeAdminOnly or AuthorOrStaffOrReadOnly decision into a refusal |
| Serializers.Lower | api_yamdb/api/serializers.py:25 | lower-casing keeps the length and maps each character independently |
| Serializers.ReservedSpellings | api_yamdb/api/serializers.py:24-27 | a username is reserved iff it is `me`, `Me`, `mE` or `ME` |
| Serializers.SignUpRefusesReservedName | api_yamdb/api/serializers.py:24-27 | sign-up refuses every spelling of the reserved name, whatever the table and email |
| Serializers.ValidateSignUp | api_yamdb/api/serializers.py:17-35 | a passing sign-up has a username that is a slug of 1 to 150 characters and not a spelling of "me", and an email of 1 to 254 characters; a malformed username is refused as such, and so is a malformed email behind a valid username; the checks never report a key clash, which is only found on insert |
| Serializers.ValidateActivation | api_yamdb/api/serializers.py:43-65 | a well-formed username nobody has is the not-found verdict, and only that; an accepted exchange has a well-formed username, a non-blank code and a stored user with that username holding exactly that code |
| Serializers.SignUpEmailRule | api_yamdb/api/serializers.py:29-35 | for a stored username, sign-up passes iff the email equals the stored one; an unknown username passes whatever the email |
| Serializers.ActivationUnknownUserFirst | api_yamdb/api/serializers.py:50-54 | a well-formed username nobody has gives not-found, whatever the code |
| Serializers.ActivationCodeRule | api_yamdb/api/serializers.py:59-65 | for a stored user, the exchange passes iff the submitted code is non-blank and exactly the stored code |
| Serializers.DefaultCodeIsAccepted | api_yamdb/reviews/models.py:80-86 | any user still holding the default code, whatever their role (an admin-created account nobody signed up for included), is accepted by the token exchange with `XXXX` |
| Serializers.ValidateScore | api_yamdb/api/serializers.py:184-192 | a score passes iff 1 <= score <= 10 |
| Serializers.ValidateReview | api_yamdb/api/serializers.py:194-202 | on POST a review passes iff no stored review has the same author and title; any other method passes |
| Serializers.ValidatedReviewKeepsUnique | api_yamdb/api/serializers.py:194-202 | a review that passed the POST check can be inserted without breaking the unique (author, title) constraint |
| Serializers.ApplyProfilePatchAsDeclared | api_yamdb/api/serializers.py:83-97 | the profile update as declared accepts a patch iff its username, email and name fields are well-formed, and then writes every sent field, username and email included, while keeping the role, the superuser flag and the code |
| Serializers.ProfilePatchAsDeclaredChangesEmail | api_yamdb/api/serializers.py:88-97 | as declared, a user can rewrite their own email through the profile update |
| Serializers.ApplyProfilePatch | api_yamdb/api/serializers.py:83-97 | the intended profile update accepts a patch iff the name fields fit 150 characters |
| Serializers.ProfilePatchKeepsIdentity | api_yamdb/api/serializers.py:97 | the intended update never changes username, email, role, superuser flag or code, and applies each writable field sent |
| Views.SignUp | api_yamdb/api/views.py:37-52 | a failed check answers with that error and changes nothing; an existing (username, email) pair only has its code replaced; a fresh pair adds one user holding the new code; an email held by another username is refused with the database unchanged; the response echoes username and email; consistency is kept |
| Views.FreshSignUpAddsOneUser | api_yamdb/api/views.py:40-51 | a fresh sign-up adds exactly one user under a fresh key, a plain user with the submitted username and email holding the new code |
| Views.FreshSignUpKeepsOtherRows | api_yamdb/api/views.py:40-51 | the same sign-up leaves every other user row and every other table as it was |
| Views.Activation | api_yamdb/api/views.py:62-69 | the exchange changes nothing; it answers not-found, rejected or a token exactly as the checks decide; a token is minted for the user with that username and that code |
| Views.CodeSurvivesOtherSignUps | api_yamdb/api/views.py:62-69 | storing a code on another existing user (a repeated sign-up by someone else) leaves a user's exchange outcome as it was |
| Views.CodeSurvivesFreshSignUps | api_yamdb/api/views.py:40-51 | a fresh sign-up under another username (insert, then store its code) leaves a user's exchange outcome as it was; with the previous row, a valid code keeps working until that user signs up again |
| Views.GetTitle | api_yamdb/api/views.py:162-164 | finds the title iff its key is stored, else not-found |
| Views.GetReview | api_yamdb/api/views.py:183-189 | finds the review iff its key is stored and it belongs to the URL title, else not-found |
| Views.CreateReview | api_yamdb/api/views.py:170-172 | anonymous is refused; then the score, then the duplicate pair, then the title's existence decide; a created review has the URL title and the sender as author; failures change nothing; consistency and the score range are kept |
| Views.CreateComment | api_yamdb/api/views.py:195-197 | anonymous is refused; a comment is created iff the URL review exists under the URL title, bound to that review and the sender; failures change nothing |

## Left out

- The title rating (an average of review scores computed by the database as a float) is not part of this model.
- Generating and mailing the confirmation code and minting the JWT are calls into modules that are not shown: the code is a parameter of `Views.SignUp`, and a token is represented by the key of the user it is minted for.
- A mail failure after the user was created is not modelled.
- Email syntax (the framework's email validator) is not modelled: any non-empty email of at most 254 characters passes.
- The framework trims whitespace from string fields before validating them. The model takes input as already trimmed.
- The required and non-blank checks on review and comment text are not modelled. Neither is the `pub_date` timestamp.
- Listing a title's reviews or a review's comments is not modelled. Neither is any update or delete request handler other than the cascades. Creating categories, genres and titles, and the admin's user management, are generic framework handlers outside this model.
- When several fields fail at once the framework reports them all in one 400. `Serializers.ValidateSignUp` reports the first.
- Serializers.Lower: maps ASCII letters only, not Python's full Unicode case mapping. The reserved-name check only sees usernames that already passed the ASCII slug check, so nothing else can reach it.
- Views.CreateReview and Views.CreateComment require `Authentic`: a signed-in caller is a row of the user table. The authentication layer provides this.
- Two requests racing between the sign-up checks and the insert are not modelled (concurrency). `Records.Store.SetConfirmationCode` requires the user row to still exist.
- Serializers.ApplyProfilePatchAsDeclared: does not model the database error (a 500) when the new username or email is already taken.

## Findings

| source | as written | input that shows it | evidently intended | confidence | as-written member | corrected member |
|---|---|---|---|---|---|---|
| api_yamdb/api/serializers.py:88-97 | `username` and `email` are declared as fields of the serializer, so its `read_only_fields` does not reach them, and a self-service PATCH rewrites them | PATCH of the own profile with `{"email": "mallory@example.org"}` by user `alice` | username, email and role are read-only in the self-service update | medium; not executed; rests on the framework ignoring `read_only_fields` for declared fields | Serializers.ProfilePatchAsDeclaredChangesEmail | Serializers.ProfilePatchKeepsIdentity |
