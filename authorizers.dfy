/**
 * The authorizers that sit between request validation and execution, and
 * the builder that picks one for each operation. An authorizer looks at
 * the class the request is about (and, for the member and course checks,
 * at the store) and answers "continue" or a FAILED result.
 */
module Authorizers {
  import opened Common
  import opened Json
  import opened Responses
  import opened ProcessorContext
  import AJEntityClass
  import opened Store

  const NOT_ALLOWED: string := "not.allowed"
  const COURSE_NOT_FOUND: string := "course.not.found.or.not.available"
  const ERROR_FROM_STORE: string := "error.from.store"

  /**
   * The authorizer implementations. `OpenClassOrInvitedStudent` carries
   * whether the handler found a membership record for the caller.
   */
  datatype AuthKind =
    | PassThrough
    | ClassOwner
    | ClassOwnerOrCollaborator
    | ClassMember
    | ClassOwnerAndCourseOwner
    | CourseOwner
    | OpenClassOrInvitedStudent(hasMembership: bool)

  /** checkOwner: the class has a non-empty creator equal to the caller, ignoring case. */
  predicate IsOwner(model: AJEntityClass.ClassRow, userId: string)
  {
    var creator := AJEntityClass.CreatorId(model);
    creator.Some? && |creator.value| != 0 && EqualsIgnoreCase(creator.value, userId)
  }

  /** checkCollaborator: the collaborator array contains the caller's id exactly. */
  predicate IsCollaborator(model: AJEntityClass.ClassRow, userId: string)
  {
    Str(userId) in AJEntityClass.Collaborators(model)
  }

  /** checkStudent: a membership row for the caller in the context's class, of any status. */
  predicate HasMembership(db: Db, ctx: Context)
  {
    ctx.classId.Some? && |MembershipsOf(db, ctx.classId.value, ctx.userId)| != 0
  }

  /** checkClassTypeOpen: the class sharing is "open", ignoring case. */
  predicate IsOpen(model: AJEntityClass.ClassRow)
  {
    var sharing := AJEntityClass.ClassSharing(model);
    sharing.Some? && EqualsIgnoreCase(AJEntityClass.CLASS_SHARING_TYPE_OPEN, sharing.value)
  }

  /** The course check shared by the two course authorizers: exactly one live course of the caller. */
  function CourseCheck(ctx: Context, db: Db, faults: set<StoreOp>): (r: ExecutionResult)
    ensures r.IsContinue() <==> CountCourse !in faults && CourseCount(db, ctx.courseId, ctx.userId) == 1
    ensures CountCourse in faults ==> r.FailedWith(InternalError)
    ensures CountCourse !in faults && CourseCount(db, ctx.courseId, ctx.userId) != 1 ==> r.FailedWith(InvalidRequest)
  {
    if CountCourse in faults then Fail(InternalError, ERROR_FROM_STORE)
    else if CourseCount(db, ctx.courseId, ctx.userId) == 1 then Continue()
    else Fail(InvalidRequest, COURSE_NOT_FOUND)
  }

  /**
   * authorize. The membership query of the member check is not guarded, so
   * a store error there escapes as an exception; the course count's store
   * error becomes an internal-error response.
   */
  function Authorize(kind: AuthKind, ctx: Context, model: AJEntityClass.ClassRow, db: Db, faults: set<StoreOp>): (r: Outcome)
    ensures r.Threw? <==> kind == ClassMember && !IsOwner(model, ctx.userId) && !IsCollaborator(model, ctx.userId)
                          && FindMembers in faults
    ensures r.Returned? ==> r.result.IsContinue() || r.result.status == Failed
    ensures r.Returned? && r.result.FailedWith(Forbidden) ==> kind != PassThrough && kind != CourseOwner
  {
    match kind
    case PassThrough => Returned(Continue())
    case ClassOwner =>
      if IsOwner(model, ctx.userId) then Returned(Continue()) else Returned(Fail(Forbidden, NOT_ALLOWED))
    case ClassOwnerOrCollaborator =>
      if IsOwner(model, ctx.userId) || IsCollaborator(model, ctx.userId) then Returned(Continue())
      else Returned(Fail(Forbidden, NOT_ALLOWED))
    case ClassMember =>
      if IsOwner(model, ctx.userId) || IsCollaborator(model, ctx.userId) then Returned(Continue())
      else if FindMembers in faults then Threw(DB_ERROR)
      else if HasMembership(db, ctx) then Returned(Continue())
      else Returned(Fail(Forbidden, NOT_ALLOWED))
    case ClassOwnerAndCourseOwner =>
      if !IsOwner(model, ctx.userId) then Returned(Fail(Forbidden, NOT_ALLOWED))
      else Returned(CourseCheck(ctx, db, faults))
    case CourseOwner => Returned(CourseCheck(ctx, db, faults))
    case OpenClassOrInvitedStudent(hasMembership) =>
      if IsOpen(model) || hasMembership then Returned(Continue()) else Returned(Fail(Forbidden, NOT_ALLOWED))
  }

  /** Whether an authorizer lets the request through. */
  predicate Passes(kind: AuthKind, ctx: Context, model: AJEntityClass.ClassRow, db: Db, faults: set<StoreOp>)
  {
    var r := Authorize(kind, ctx, model, db, faults);
    r.Returned? && r.result.IsContinue()
  }

  /**
   * What each authorizer admits, stated independently of the result
   * plumbing: owner; owner or collaborator; owner, collaborator or
   * any membership row; class owner and owner of exactly one matching
   * live course; open class or a membership record.
   */
  lemma PassesMeaning(kind: AuthKind, ctx: Context, model: AJEntityClass.ClassRow, db: Db, faults: set<StoreOp>)
    ensures kind == PassThrough ==> Passes(kind, ctx, model, db, faults)
    ensures kind == ClassOwner ==> (Passes(kind, ctx, model, db, faults) <==> IsOwner(model, ctx.userId))
    ensures kind == ClassOwnerOrCollaborator ==>
              (Passes(kind, ctx, model, db, faults) <==> IsOwner(model, ctx.userId) || IsCollaborator(model, ctx.userId))
    ensures kind == ClassMember && FindMembers !in faults ==>
              (Passes(kind, ctx, model, db, faults) <==>
                 IsOwner(model, ctx.userId) || IsCollaborator(model, ctx.userId) || HasMembership(db, ctx))
    ensures kind == ClassOwnerAndCourseOwner ==>
              (Passes(kind, ctx, model, db, faults) <==>
                 IsOwner(model, ctx.userId) && CountCourse !in faults && CourseCount(db, ctx.courseId, ctx.userId) == 1)
    ensures kind == CourseOwner ==>
              (Passes(kind, ctx, model, db, faults) <==> CountCourse !in faults && CourseCount(db, ctx.courseId, ctx.userId) == 1)
    ensures kind.OpenClassOrInvitedStudent? ==>
              (Passes(kind, ctx, model, db, faults) <==> IsOpen(model) || kind.hasMembership)
  {
  }

  /**
   * The authorizers form a hierarchy: whoever the owner check admits, the
   * owner-or-collaborator check admits, and whoever that admits, the member
   * check admits (without touching the store). The owner-and-course-owner
   * check admits no one the owner check refuses.
   */
  lemma AuthorizerHierarchy(ctx: Context, model: AJEntityClass.ClassRow, db: Db, faults: set<StoreOp>)
    ensures Passes(ClassOwner, ctx, model, db, faults) ==> Passes(ClassOwnerOrCollaborator, ctx, model, db, faults)
    ensures Passes(ClassOwnerOrCollaborator, ctx, model, db, faults) ==> Passes(ClassMember, ctx, model, db, faults)
    ensures Passes(ClassOwnerAndCourseOwner, ctx, model, db, faults) ==>
              Passes(ClassOwner, ctx, model, db, faults) && Passes(CourseOwner, ctx, model, db, faults)
  {
  }

  /** A course id that is null names no course, so both course checks refuse it. */
  lemma NullCourseIsRefused(ctx: Context, model: AJEntityClass.ClassRow, db: Db, faults: set<StoreOp>)
    requires ctx.courseId.None?
    ensures !Passes(CourseOwner, ctx, model, db, faults)
    ensures !Passes(ClassOwnerAndCourseOwner, ctx, model, db, faults)
  {
  }

  /**
   * Owner matching ignores case but collaborator matching does not: an
   * owner id written in upper case still owns the class, while the same
   * id in the collaborator list in upper case does not make the caller a
   * collaborator.
   */
  lemma OwnerMatchIgnoresCase()
    ensures var model := map[AJEntityClass.CREATOR_ID := Str("AB"), AJEntityClass.COLLABORATOR := Arr([Str("AB")])];
            IsOwner(model, "ab") && !IsCollaborator(model, "ab")
  {
    var model := map[AJEntityClass.CREATOR_ID := Str("AB"), AJEntityClass.COLLABORATOR := Arr([Str("AB")])];
    assert AJEntityClass.CreatorId(model) == Some("AB");
    assert LowerAscii('A') == 'a' && LowerAscii('B') == 'b';
    assert AJEntityClass.Collaborators(model) == [Str("AB")];
    assert Str("ab") != Str("AB");
  }

  // ---------------------------------------------------------------------------
  // AuthorizerBuilder

  /** The operations for which the builder hands out an authorizer. */
  datatype Operation =
    | AssociateCourseWithClass | DeleteClass | FetchClassesForCourse | FetchClassesForUser | FetchClass
    | FetchClassMembers | ClassMembers | InviteStudentToClass | RemoveInvite | RemoveStudent
    | JoinClassByStudent(hasMembership: bool) | UpdateClass | UpdateCollaborator | CreateClass
    | ContentVisibility | VisibleContent | VisibleContentStats

  /** The builder: which authorizer guards each operation. */
  function AuthorizerFor(op: Operation): (k: AuthKind)
    ensures op.JoinClassByStudent? <==> k.OpenClassOrInvitedStudent?
    ensures op.JoinClassByStudent? ==> k.hasMembership == op.hasMembership
  {
    match op
    case AssociateCourseWithClass => ClassOwnerAndCourseOwner
    case DeleteClass => ClassOwner
    case FetchClassesForCourse => CourseOwner
    case FetchClassesForUser => PassThrough
    case FetchClass => PassThrough
    case FetchClassMembers => ClassMember
    case ClassMembers => ClassMember
    case InviteStudentToClass => ClassOwnerOrCollaborator
    case RemoveInvite => ClassOwnerOrCollaborator
    case RemoveStudent => ClassOwnerOrCollaborator
    case JoinClassByStudent(m) => OpenClassOrInvitedStudent(m)
    case UpdateClass => ClassOwnerOrCollaborator
    case UpdateCollaborator => ClassOwner
    case CreateClass => PassThrough
    case ContentVisibility => ClassOwnerOrCollaborator
    case VisibleContent => ClassMember
    case VisibleContentStats => PassThrough
  }

  /**
   * Who may do what: deleting a class and changing its collaborators is
   * for the owner alone; inviting, removing, updating and publishing
   * content is for the owner or a collaborator; reading members and
   * visible content is for anyone with a relation to the class; creating,
   * fetching one class or one's own classes, and the statistics are open.
   */
  lemma BuilderPolicy(ctx: Context, model: AJEntityClass.ClassRow, db: Db, faults: set<StoreOp>)
    ensures forall op :: op in {DeleteClass, UpdateCollaborator} ==>
              (Passes(AuthorizerFor(op), ctx, model, db, faults) <==> IsOwner(model, ctx.userId))
    ensures forall op :: op in {InviteStudentToClass, RemoveInvite, Operation.RemoveStudent, UpdateClass, ContentVisibility} ==>
              (Passes(AuthorizerFor(op), ctx, model, db, faults) <==> IsOwner(model, ctx.userId) || IsCollaborator(model, ctx.userId))
    ensures forall op :: op in {CreateClass, FetchClass, FetchClassesForUser, VisibleContentStats} ==>
              Passes(AuthorizerFor(op), ctx, model, db, faults)
    ensures FindMembers !in faults ==> forall op :: op in {FetchClassMembers, ClassMembers, VisibleContent} ==>
              (Passes(AuthorizerFor(op), ctx, model, db, faults) <==>
                 IsOwner(model, ctx.userId) || IsCollaborator(model, ctx.userId) || HasMembership(db, ctx))
  {
    forall op | op in {DeleteClass, UpdateCollaborator}
      ensures Passes(AuthorizerFor(op), ctx, model, db, faults) <==> IsOwner(model, ctx.userId)
    {
      assert AuthorizerFor(op) == ClassOwner;
      PassesMeaning(ClassOwner, ctx, model, db, faults);
    }
    forall op | op in {InviteStudentToClass, RemoveInvite, Operation.RemoveStudent, UpdateClass, ContentVisibility}
      ensures Passes(AuthorizerFor(op), ctx, model, db, faults) <==> IsOwner(model, ctx.userId) || IsCollaborator(model, ctx.userId)
    {
      assert AuthorizerFor(op) == ClassOwnerOrCollaborator;
      PassesMeaning(ClassOwnerOrCollaborator, ctx, model, db, faults);
    }
    forall op | op in {CreateClass, FetchClass, FetchClassesForUser, VisibleContentStats}
      ensures Passes(AuthorizerFor(op), ctx, model, db, faults)
    {
      assert AuthorizerFor(op) == PassThrough;
      PassesMeaning(PassThrough, ctx, model, db, faults);
    }
    if FindMembers !in faults {
      forall op | op in {FetchClassMembers, ClassMembers, VisibleContent}
        ensures Passes(AuthorizerFor(op), ctx, model, db, faults) <==>
                  IsOwner(model, ctx.userId) || IsCollaborator(model, ctx.userId) || HasMembership(db, ctx)
      {
        assert AuthorizerFor(op) == ClassMember;
        PassesMeaning(ClassMember, ctx, model, db, faults);
      }
    }
  }
}
