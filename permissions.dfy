/** Access-control decisions of the API: each permission class becomes a
    predicate of the request (its HTTP method and who sends it) and, for
    object-level checks, of the object's owner. The framework asks the
    object-level question only after the class's request-level check has
    granted access, and the object-level predicates require exactly that. */
module Permissions {
  import opened Records

  /** The sender of a request: nobody, or a stored user with its key. */
  datatype Caller = Anonymous | SignedIn(id: Id, user: User)

  datatype Request = Request(verb: string, caller: Caller)

  /** The framework's read-only methods. */
  predicate IsSafe(verb: string) {
    verb == "GET" || verb == "HEAD" || verb == "OPTIONS"
  }

  predicate IsAuthenticated(c: Caller) { c.SignedIn? }

  /** The anonymous user is never a superuser. */
  predicate IsSuperuser(c: Caller) { c.SignedIn? && c.user.isSuperuser }

  // IamOrReadOnly

  predicate IamOrReadOnlyHasPermission(req: Request) {
    IsAuthenticated(req.caller)
  }

  /** `obj` is the key of the user record being accessed. */
  predicate IamOrReadOnlyHasObjectPermission(req: Request, obj: Id)
    requires IamOrReadOnlyHasPermission(req)
  {
    req.caller.user.isSuperuser || IsAdmin(req.caller.user) || obj == req.caller.id
  }

  predicate IamOrReadOnlyAllows(req: Request, obj: Id) {
    IamOrReadOnlyHasPermission(req) && IamOrReadOnlyHasObjectPermission(req, obj)
  }

  // AdminOrReadOnly

  predicate AdminOrReadOnlyHasPermission(req: Request) {
    IsAuthenticated(req.caller) && (req.caller.user.role == ADMIN || req.caller.user.isSuperuser)
  }

  // AuthReadOnly

  predicate AuthReadOnlyHasPermission(req: Request) {
    IsAuthenticated(req.caller)
  }

  predicate AuthReadOnlyHasObjectPermission(req: Request, obj: Id) {
    req.caller.SignedIn? && obj == req.caller.id
  }

  predicate AuthReadOnlyAllows(req: Request, obj: Id) {
    AuthReadOnlyHasPermission(req) && AuthReadOnlyHasObjectPermission(req, obj)
  }

  // ChangeAdminOnly

  predicate ChangeAdminOnlyHasPermission(req: Request) {
    IsAuthenticated(req.caller) && (req.caller.user.isSuperuser || IsAdmin(req.caller.user))
  }

  // StaffOrReadOnly

  predicate StaffOrReadOnlyHasPermission(req: Request) {
    IsSafe(req.verb) || (IsAuthenticated(req.caller) && IsAdmin(req.caller.user))
  }

  // AuthorOrStaffOrReadOnly

  predicate AuthorOrStaffHasPermission(req: Request) {
    IsSafe(req.verb) || IsAuthenticated(req.caller)
  }

  /** `author` is the author key of the review or comment being accessed. */
  predicate AuthorOrStaffHasObjectPermission(req: Request, author: Id)
    requires AuthorOrStaffHasPermission(req)
  {
    IsSafe(req.verb) ||
    author == req.caller.id || IsModerator(req.caller.user) || IsAdmin(req.caller.user)
  }

  predicate AuthorOrStaffAllows(req: Request, author: Id) {
    AuthorOrStaffHasPermission(req) && AuthorOrStaffHasObjectPermission(req, author)
  }

  // ---------------------------------------------------------------------
  // What the classes promise

  /** StaffOrReadOnly lets every read through, anonymous ones included, and
      a write only from an authenticated admin: superuser status alone does
      not count. */
  lemma StaffOrReadOnlyRule(req: Request)
    ensures IsSafe(req.verb) ==> StaffOrReadOnlyHasPermission(req)
    ensures !IsSafe(req.verb) ==>
      (StaffOrReadOnlyHasPermission(req) <==> req.caller.SignedIn? && IsAdmin(req.caller.user))
    ensures !IsSafe(req.verb) && IsSuperuser(req.caller) && !IsAdmin(req.caller.user) ==>
      !StaffOrReadOnlyHasPermission(req)
  {
  }

  /** ChangeAdminOnly looks at the user only, never at the method. */
  lemma ChangeAdminOnlyRule(req: Request, otherVerb: string)
    ensures ChangeAdminOnlyHasPermission(req) <==>
      req.caller.SignedIn? && (req.caller.user.isSuperuser || IsAdmin(req.caller.user))
    ensures ChangeAdminOnlyHasPermission(req) == ChangeAdminOnlyHasPermission(req.(verb := otherVerb))
  {
  }

  /** AuthorOrStaffOrReadOnly refuses, at request level, only anonymous writes. */
  lemma AuthorOrStaffRequestRule(req: Request)
    ensures !AuthorOrStaffHasPermission(req) <==> !IsSafe(req.verb) && req.caller.Anonymous?
  {
  }

  /** On a review or comment, a write is allowed to its author, to any
      moderator and to any admin, and refused to every other signed-in plain
      user; reads are allowed to all. */
  lemma AuthorOrStaffObjectRule(req: Request, author: Id)
    ensures IsSafe(req.verb) ==> AuthorOrStaffAllows(req, author)
    ensures req.caller.SignedIn? ==>
      (AuthorOrStaffAllows(req, author) <==>
        IsSafe(req.verb) || author == req.caller.id ||
        IsModerator(req.caller.user) || IsAdmin(req.caller.user))
    ensures req.caller.SignedIn? && IsUser(req.caller.user) && author != req.caller.id && !IsSafe(req.verb) ==>
      !AuthorOrStaffAllows(req, author)
    ensures req.caller.Anonymous? && !IsSafe(req.verb) ==> !AuthorOrStaffAllows(req, author)
  {
  }

  /** A user record may be accessed by a superuser, an admin or its owner;
      under AuthReadOnly, only by its owner. */
  lemma OwnRecordRule(req: Request, obj: Id)
    ensures IamOrReadOnlyAllows(req, obj) <==>
      req.caller.SignedIn? && (req.caller.user.isSuperuser || IsAdmin(req.caller.user) || obj == req.caller.id)
    ensures AuthReadOnlyAllows(req, obj) <==> req.caller.SignedIn? && obj == req.caller.id
  {
  }

  /** Despite its name, AdminOrReadOnly refuses reads too to anyone who is
      neither an authenticated admin nor a superuser. */
  lemma AdminOrReadOnlyRefusesReads(req: Request)
    ensures AdminOrReadOnlyHasPermission(req) <==>
      req.caller.SignedIn? && (IsAdmin(req.caller.user) || req.caller.user.isSuperuser)
    ensures IsSafe(req.verb) && (req.caller.Anonymous? || IsUser(req.caller.user) || IsModerator(req.caller.user)) &&
            !IsSuperuser(req.caller) ==>
      !AdminOrReadOnlyHasPermission(req)
  {
  }

  /** The same caller after an admin gave them the admin role. */
  function Promoted(c: Caller): (p: Caller)
    requires c.SignedIn?
    ensures p.SignedIn? && p.id == c.id && IsAdmin(p.user)
    ensures p.user == c.user.(role := ADMIN)
  {
    SignedIn(c.id, c.user.(role := ADMIN))
  }

  /** Raising a plain user to admin never turns a granted request into a
      refused one. */
  lemma PromotionNeverRevokes(req: Request, author: Id)
    requires req.caller.SignedIn? && IsUser(req.caller.user)
    ensures var p := req.(caller := Promoted(req.caller));
      && (StaffOrReadOnlyHasPermission(req) ==> StaffOrReadOnlyHasPermission(p))
      && (ChangeAdminOnlyHasPermission(req) ==> ChangeAdminOnlyHasPermission(p))
      && (AuthorOrStaffHasPermission(req) ==> AuthorOrStaffHasPermission(p))
      && (AuthorOrStaffAllows(req, author) ==> AuthorOrStaffAllows(p, author))
  {
  }
}
