# Class handlers of the Nucleus platform, modelled in Dafny

This project models the class handlers of the Nucleus platform. They answer
requests about classes and their members. A class is created, updated,
deleted and fetched. It is tied to a course. Students are invited and join
it, with or without a class code. Collaborators are replaced, a student is
removed, and the class's content-visibility settings are read and changed.

Each request arrives with a processor context. The context holds the user
id, the request body, the class id and the other ids named in the address.
A handler runs three phases in turn:

- `checkSanity` looks at the ids and the caller.
- `validateRequest` loads the class or the membership, checks its version
  and archive state, and asks an authorizer whether the caller may act.
- `executeRequest` changes or reads the store and builds the response.

The transaction executor runs the phases. It wraps them in a read-only or a
read-write transaction, rolls back on failure, and turns an escaping
exception into an internal-error response.

The model keeps the source's structure:

- One Dafny module per Java file, with the Java class's name.
- The four authorizers share one module, `Authorizers`.
- A handler is a Dafny `class`. It has the Java fields and one method per
  phase.
- A phase returns `Returned(result)`, or `Threw(message)` when the Java code
  would raise an exception.
- The store is the class `Store.Database`. It holds the class, member,
  collection-item and course rows, plus the set of store operations that
  fail. A failing operation stands for a `DBException`.
- A record that the handlers fill in place, such as `AJEntityClass` or
  `AJClassMember`, is a class whose setters are methods.
- Pure helpers are functions with lemmas about them: the payload validator,
  the field validators, the class-code generator, the entity builder, the
  Postgres array literal and the JSON getters.
- JSON is the datatype `Json.Value`. An object is a `map<string, Value>`;
  its key order is not modelled.
- A vert.x getter that casts returns `Absent`, `Found(v)` or `CastFailure`.

Code the handlers call but that is not part of this model becomes a
parameter or a function-valued field. This covers parsing UUIDs, e-mail
addresses, integers and dates, the random draws of the class-code
generator, the current time, demographic summaries and the class's
settings.

Four behaviours of the code are easy to misread, and the model keeps each
as the code has it:

- The class-code alphabet has 34 symbols.
- Merging the content-visibility lists concatenates them, the request's list first, and keeps duplicates.
- Updating the collaborators does not drop the owner or repeated ids.
- The class-member authorizer does not look at the membership status.

## Model

| member | source | states |
|---|---|---|
| AJClassMember.DeleteFiltersAreDisjoint | src/main/java/org/gooru/nucleus/handlers/classes/processors/repositories/activejdbc/entities/AJClassMember.java:58-61 | the remove-student filter (a user's joined row) and the delete-invite filter (an email's invited row) never select the same row; each narrows the class's per-user or per-email filter |
| AJClassMember.MemberModel.Empty | src/main/java/org/gooru/nucleus/handlers/classes/processors/repositories/activejdbc/entities/AJClassMember.java:18-35 | a new membership record has no column set, no errors and is new |
| AJClassMember.MemberModel.Load | src/main/java/org/gooru/nucleus/handlers/classes/processors/repositories/activejdbc/entities/AJClassMember.java:18-35 | a loaded membership record reads back exactly the stored row, without errors, and is not new |
| AJClassMember.MemberModel.Row | src/main/java/org/gooru/nucleus/handlers/classes/processors/repositories/activejdbc/entities/AJClassMember.java:23-35 | a record is a storable row exactly when class id, email and status are set; user id, creator system and roster id carry over unchanged |
| AJClassMember.MemberModel.SetClassId | src/main/java/org/gooru/nucleus/handlers/classes/processors/repositories/activejdbc/entities/AJClassMember.java:63-74 | a null or empty id changes nothing; an id the driver converts becomes the class id; any other id leaves the column and records the invalid-class error under class_id; no other column changes |
| AJClassMember.MemberModel.SetUserId | src/main/java/org/gooru/nucleus/handlers/classes/processors/repositories/activejdbc/entities/AJClassMember.java:76-87 | as for the class id, but sets user_id; the invalid-user error is recorded under the class_id key, as the code does |
| AJClassMember.MemberModel.SetEmail | src/main/java/org/gooru/nucleus/handlers/classes/processors/repositories/activejdbc/dbhandlers/JoinClassByStudentHandler.java:121 | sets the email column and nothing else |
| AJClassMember.MemberModel.SetStatus | src/main/java/org/gooru/nucleus/handlers/classes/processors/repositories/activejdbc/entities/AJClassMember.java:89-110 | a status the named-type conversion accepts becomes the status; otherwise the status stays and the invalid-status error is recorded under class_id |
| AJClassMember.MemberModel.SetStatusJoined | src/main/java/org/gooru/nucleus/handlers/classes/processors/repositories/activejdbc/entities/AJClassMember.java:89-99 | the status becomes "joined", or the invalid-status error is recorded; nothing else changes |
| AJClassMember.MemberModel.SetStatusInvited | src/main/java/org/gooru/nucleus/handlers/classes/processors/repositories/activejdbc/entities/AJClassMember.java:101-110 | the status becomes "invited", or the invalid-status error is recorded; nothing else changes |
| AJClassMember.MemberModel.SetCreatorSystem | src/main/java/org/gooru/nucleus/handlers/classes/processors/repositories/activejdbc/entities/AJClassMember.java:112-116 | a non-null value replaces creator_system, a null one changes nothing |
| AJClassMember.MemberModel.SetRosterId | src/main/java/org/gooru/nucleus/handlers/classes/processors/repositories/activejdbc/entities/AJClassMember.java:118-122 | a non-null value replaces roster_id, a null one changes nothing |
| AJEntityClass.CourseIdCheck | src/main/java/org/gooru/nucleus/handlers/classes/processors/repositories/activejdbc/entities/AJEntityClass.java:126 | the course_id validator throws on anything but a string or null, and passes exactly a null or a UUID text |
| AJEntityClass.SharingValidatorMeaning | src/main/java/org/gooru/nucleus/handlers/classes/processors/repositories/activejdbc/entities/AJEntityClass.java:118-121 | class_sharing never throws and passes exactly "open" or "restricted", ignoring case |
| AJEntityClass.ContentVisibilityValidatorsMeaning | src/main/java/org/gooru/nucleus/handlers/classes/processors/repositories/activejdbc/entities/AJEntityClass.java:133-140 | each of units, lessons, collections and assessments passes exactly a non-empty array of UUID texts |
| AJEntityClass.CollaboratorValidatorMeaning | src/main/java/org/gooru/nucleus/handlers/classes/processors/repositories/activejdbc/entities/AJEntityClass.java:127-128 | collaborator passes exactly null or a non-empty array of UUID texts |
| AJEntityClass.InviteesValidatorMeaning | src/main/java/org/gooru/nucleus/handlers/classes/processors/repositories/activejdbc/entities/AJEntityClass.java:131-132 | invitees passes exactly null or a non-empty array of e-mail texts |
| AJEntityClass.UuidConverter | src/main/java/org/gooru/nucleus/handlers/classes/processors/repositories/activejdbc/entities/AJEntityClass.java:97 | the uuid converter throws exactly on a value that is neither a string nor null (the cast to String) |
| AJEntityClass.DateConverter | src/main/java/org/gooru/nucleus/handlers/classes/processors/repositories/activejdbc/entities/AJEntityClass.java:99-100 | the date converter keeps exactly the texts that are ISO local dates |
| AJEntityClass.Converters | src/main/java/org/gooru/nucleus/handlers/classes/processors/repositories/activejdbc/entities/AJEntityClass.java:95-109 | the converter registry covers exactly the nine converted fields |
| AJEntityClass.ConvertersThrowOnlyOnUuidCasts | src/main/java/org/gooru/nucleus/handlers/classes/processors/repositories/activejdbc/entities/AJEntityClass.java:95-109 | a converter throws only for the four uuid columns, and exactly on a non-string, non-null value |
| AJEntityClass.IsCurrentVersion | src/main/java/org/gooru/nucleus/handlers/classes/processors/repositories/activejdbc/entities/AJEntityClass.java:251-253 | true exactly when gooru_version is 3; throws when the column is missing or not a number (the unboxing of null) |
| AJEntityClass.UsableForWrite | src/main/java/org/gooru/nucleus/handlers/classes/processors/repositories/activejdbc/dbhandlers/DeleteClassHandler.java:62-66 | a class may be changed exactly when it is current and not archived; the check throws exactly when the version check does |
| AJEntityClass.ClassModel.Empty | src/main/java/org/gooru/nucleus/handlers/classes/processors/repositories/activejdbc/entities/AJEntityClass.java:19 | a new class model has no attributes, nothing dirty, and is new |
| AJEntityClass.ClassModel.Load | src/main/java/org/gooru/nucleus/handlers/classes/processors/repositories/activejdbc/entities/AJEntityClass.java:19 | a loaded class model holds the stored row, nothing dirty, and is not new |
| AJEntityClass.ClassModel.Set | src/main/java/org/gooru/nucleus/handlers/classes/processors/repositories/activejdbc/entities/AJEntityClass.java:19 | set replaces one attribute and marks it dirty |
| AJEntityClass.ClassModel.SetModifierId | src/main/java/org/gooru/nucleus/handlers/classes/processors/repositories/activejdbc/entities/AJEntityClass.java:215-222 | modifier_id becomes the converted id (null when unconvertible) and is marked dirty |
| AJEntityClass.ClassModel.SetCreatorId | src/main/java/org/gooru/nucleus/handlers/classes/processors/repositories/activejdbc/entities/AJEntityClass.java:224-231 | creator_id becomes the converted id and is marked dirty |
| AJEntityClass.ClassModel.SetCourseId | src/main/java/org/gooru/nucleus/handlers/classes/processors/repositories/activejdbc/entities/AJEntityClass.java:233-240 | course_id becomes the converted id and is marked dirty |
| AJEntityClass.ClassModel.SetIdWithConverter | src/main/java/org/gooru/nucleus/handlers/classes/processors/repositories/activejdbc/entities/AJEntityClass.java:242-249 | id becomes the converted id and is marked dirty |
| AJEntityClass.ClassModel.SetContentVisibility | src/main/java/org/gooru/nucleus/handlers/classes/processors/repositories/activejdbc/entities/AJEntityClass.java:206-213 | content_visibility becomes the given object and is marked dirty |
| AJEntityClass.ClassModel.SetVersion | src/main/java/org/gooru/nucleus/handlers/classes/processors/repositories/activejdbc/entities/AJEntityClass.java:259-261 | afterwards the class is of the current version; gooru_version is 3 and dirty |
| AJEntityClass.ClassModel.Changes | src/main/java/org/gooru/nucleus/handlers/classes/processors/repositories/activejdbc/entities/AJEntityClass.java:19 | what a save writes: exactly the dirty attributes with their values |
| AJEntityCollection.AtMostOneFormat | src/main/java/org/gooru/nucleus/handlers/classes/processors/repositories/activejdbc/entities/AJEntityCollection.java:92-104 | no item is more than one of assessment, collection and external assessment |
| AJEntityCollection.WithClassMeaning | src/main/java/org/gooru/nucleus/handlers/classes/processors/repositories/activejdbc/entities/AJEntityCollection.java:45-77 | appending the class to class_visibility makes the item visible to that class exactly when the column was not NULL, and leaves its visibility to every other class unchanged |
| AssociateCourseWithClassHandler.AssociationSettersChange | src/main/java/org/gooru/nucleus/handlers/classes/processors/repositories/activejdbc/dbhandlers/AssociateCourseWithClassHandler.java:86-89 | after the two setters, the save writes exactly the new modifier_id and course_id |
| AssociateCourseWithClassHandler.AssociationIsFinal | src/main/java/org/gooru/nucleus/handlers/classes/processors/repositories/activejdbc/dbhandlers/AssociateCourseWithClassHandler.java:66-72 | once the association is saved, every row of the class holds the course, so the class now counts as associated and a second association is refused |
| AssociateCourseWithClassHandler.AssociateCourseWithClassHandler.constructor | src/main/java/org/gooru/nucleus/handlers/classes/processors/repositories/activejdbc/dbhandlers/AssociateCourseWithClassHandler.java:29-31 | the handler keeps its context and starts with no class loaded |
| AssociateCourseWithClassHandler.AssociateCourseWithClassHandler.CheckSanity | src/main/java/org/gooru/nucleus/handlers/classes/processors/repositories/activejdbc/dbhandlers/AssociateCourseWithClassHandler.java:34-55 | a missing class or course id is an invalid request; an anonymous caller is forbidden; the handler continues exactly when both ids are present, the caller is signed in and the payload is present and empty |
| AssociateCourseWithClassHandler.AssociateCourseWithClassHandler.ValidateRequest | src/main/java/org/gooru/nucleus/handlers/classes/processors/repositories/activejdbc/dbhandlers/AssociateCourseWithClassHandler.java:58-81 | a missing live class is not found; a class that already has a course is refused before the version check; otherwise the version and archive checks and then the class-owner-and-course-owner authorizer decide; it continues exactly when all of these pass |
| AssociateCourseWithClassHandler.AssociateCourseWithClassHandler.ExecuteRequest | src/main/java/org/gooru/nucleus/handlers/classes/processors/repositories/activejdbc/dbhandlers/AssociateCourseWithClassHandler.java:84-102 | a failing save throws and leaves the store unchanged; otherwise the class row gets the caller as modifier and the course, and the answer is "no content" with the class-update event |
| Authorizers.CourseCheck | src/main/java/org/gooru/nucleus/handlers/classes/processors/repositories/activejdbc/dbauth/ClassOwnerAndCourseOwnerAuthorizer.java:41-55 | the course count continues exactly when it runs and finds one live course owned by the caller; a store error is an internal error, any other count an invalid request |
| Authorizers.Authorize | src/main/java/org/gooru/nucleus/handlers/classes/processors/repositories/activejdbc/dbauth/ClassMemberAuthorizer.java:30-43 | only the class-member check can throw, exactly when neither owner nor collaborator and the membership query fails; every answer is continue or failed; a forbidden answer never comes from the pass-through or course-owner kinds |
| Authorizers.PassesMeaning | src/main/java/org/gooru/nucleus/handlers/classes/processors/repositories/activejdbc/dbauth/ClassOwnerAuthorizer.java:27-36 | per kind, what lets a caller through: anything (pass-through); owner; owner or collaborator; owner, collaborator or any membership row; owner and course owner; course owner; open class or a membership record |
| Authorizers.AuthorizerHierarchy | src/main/java/org/gooru/nucleus/handlers/classes/processors/repositories/activejdbc/dbauth/ClassOwnerOrCollaboratorAuthorizer.java:28-40 | owner implies owner-or-collaborator, which implies member; class-and-course owner implies both class owner and course owner |
| Authorizers.NullCourseIsRefused | src/main/java/org/gooru/nucleus/handlers/classes/processors/repositories/activejdbc/dbauth/CourseOwnerAuthorizer.java:29-43 | with no course id in the context, neither course authorizer lets anybody through |
| Authorizers.AuthorizerFor | src/main/java/org/gooru/nucleus/handlers/classes/processors/repositories/activejdbc/dbauth/AuthorizerBuilder.java:17-99 | the join operation, and only it, gets the open-class-or-invited authorizer, carrying whether a membership was found |
| Authorizers.BuilderPolicy | src/main/java/org/gooru/nucleus/handlers/classes/processors/repositories/activejdbc/dbauth/AuthorizerBuilder.java:17-99 | per operation: delete and update-collaborator need the owner; invite, remove-invite, remove-student, update and content-visibility need owner or collaborator; create, fetch-class, fetch-for-user and statistics let everyone through; fetch-members and visible-content admit members (when the membership query works) |
| ClassCodeGenerator.AlphabetFacts | src/main/java/org/gooru/nucleus/handlers/classes/processors/repositories/generators/ClassCodeGenerator.java:19 | the code alphabet has 34 symbols and leaves out 0 and 1 |
| ClassCodeGenerator.ClassCode | src/main/java/org/gooru/nucleus/handlers/classes/processors/repositories/generators/ClassCodeGenerator.java:20-34 | a class code is 7 characters, each from the alphabet |
| ClassCodeGenerator.GenerateClassId | src/main/java/org/gooru/nucleus/handlers/classes/processors/repositories/generators/ClassCodeGenerator.java:22-34 | the loop builds exactly the code the draws select |
| ContentVisibilityHandler.ParseBoundary | src/main/java/org/gooru/nucleus/handlers/classes/processors/repositories/activejdbc/dbhandlers/ContentVisibilityHandler.java:283-311 | the "all" branch yields a boundary or a refusal with exactly one error |
| ContentVisibilityHandler.ParseScope | src/main/java/org/gooru/nucleus/handlers/classes/processors/repositories/activejdbc/dbhandlers/ContentVisibilityHandler.java:258-316 | reading the scope document yields a refusal with exactly one error, a "specific" request or a boundary; a non-text or non-object value throws |
| ContentVisibilityHandler.AcceptedScopes | src/main/java/org/gooru/nucleus/handlers/classes/processors/repositories/activejdbc/dbhandlers/ContentVisibilityHandler.java:264-311 | an accepted document has a non-empty scope object whose type is exactly "specific" or "all"; a boundary request carries the boundary's entity, course id, unit id and lesson id as written |
| ContentVisibilityHandler.SpecificAlwaysRefused | src/main/java/org/gooru/nucleus/handlers/classes/processors/repositories/activejdbc/dbhandlers/ContentVisibilityHandler.java:279-282 | a "specific" document is checked whole against a selector that does not allow "scope", so unless a validator throws it is always refused with "scope" not allowed |
| ContentVisibilityHandler.BoundaryScopeMeaning | src/main/java/org/gooru/nucleus/handlers/classes/processors/repositories/activejdbc/dbhandlers/ContentVisibilityHandler.java:175-221 | with a course the boundary covers an item exactly when it is in the course, in the unit when one is given, and in the lesson when unit and lesson are both given |
| ContentVisibilityHandler.EntityFilterMeaning | src/main/java/org/gooru/nucleus/handlers/classes/processors/repositories/activejdbc/dbhandlers/ContentVisibilityHandler.java:163-173 | entity "all" admits every format, "collection" exactly collections, "assessment" everything but collections |
| ContentVisibilityHandler.BoundaryBecomesVisible | src/main/java/org/gooru/nucleus/handlers/classes/processors/repositories/activejdbc/dbhandlers/ContentVisibilityHandler.java:175-221 | given that the non-visible list held every live boundary item of the entity's format whose array lacks the class, after the update each such item with a non-NULL class_visibility is visible to the class, an item whose column is NULL stays NULL and invisible, and every item outside the boundary or format is unchanged |
| ContentVisibilityHandler.NonVisibleOfFormat | src/main/java/org/gooru/nucleus/handlers/classes/processors/repositories/activejdbc/entities/AJEntityCollection.java:79-89 | every id the non-visible lookup returns belongs to an item of exactly the requested format |
| ContentVisibilityHandler.ExternalAssessmentsStayInvisible | src/main/java/org/gooru/nucleus/handlers/classes/processors/repositories/activejdbc/dbhandlers/ContentVisibilityHandler.java:169-173 | for entity "assessment" the update's format condition admits an external assessment, yet the lookup of format "assessment" never lists it, so with unique ids every external assessment is left unchanged and stays invisible |
| ContentVisibilityHandler.LookupFormat | src/main/java/org/gooru/nucleus/handlers/classes/processors/repositories/activejdbc/dbhandlers/ContentVisibilityHandler.java:163-173 | the non-visible lookup gets no format exactly for entity "all" |
| ContentVisibilityHandler.MarkBoundaryVisible | src/main/java/org/gooru/nucleus/handlers/classes/processors/repositories/activejdbc/dbhandlers/ContentVisibilityHandler.java:175-221 | without a course no update runs; otherwise the one template matching course, unit and lesson updates the items, or a store error leaves the store unchanged |
| ContentVisibilityHandler.SpecificIds | src/main/java/org/gooru/nucleus/handlers/classes/processors/repositories/activejdbc/dbhandlers/ContentVisibilityHandler.java:245-256 | the ids marked visible are exactly the string elements of the assessments list followed by the collections list; a non-array value throws |
| ContentVisibilityHandler.StringsMembership | src/main/java/org/gooru/nucleus/handlers/classes/processors/repositories/activejdbc/dbhandlers/ContentVisibilityHandler.java:245-256 | a text is among the extracted ids exactly when the list holds it as a string element |
| ContentVisibilityHandler.ContentVisibilityHandler.constructor | src/main/java/org/gooru/nucleus/handlers/classes/processors/repositories/activejdbc/dbhandlers/ContentVisibilityHandler.java:47-49 | the handler keeps its context and starts with nothing read from the request or the store |
| ContentVisibilityHandler.ContentVisibilityHandler.PayloadValidator | src/main/java/org/gooru/nucleus/handlers/classes/processors/repositories/activejdbc/dbhandlers/ContentVisibilityHandler.java:258-316 | the errors, the recorded type, entity and boundary ids are those the scope document determines; a "specific" document gets the payload validator's answer |
| ContentVisibilityHandler.ContentVisibilityHandler.CheckSanity | src/main/java/org/gooru/nucleus/handlers/classes/processors/repositories/activejdbc/dbhandlers/ContentVisibilityHandler.java:52-84 | missing class id, anonymous caller and empty payload are refused in that order; a refused document is a validation error; it continues exactly for an accepted "all" document, whose fields it records |
| ContentVisibilityHandler.ContentVisibilityHandler.CheckLoadedClass | src/main/java/org/gooru/nucleus/handlers/classes/processors/repositories/activejdbc/dbhandlers/ContentVisibilityHandler.java:104-132 | a loaded class is admitted exactly when the class's own settings allow it, the caller owns or co-teaches it, it has a course, and a "specific" request names only content of that course |
| ContentVisibilityHandler.ContentVisibilityHandler.CheckCourseAndContent | src/main/java/org/gooru/nucleus/handlers/classes/processors/repositories/activejdbc/dbhandlers/ContentVisibilityHandler.java:114-132 | continues exactly when the class has a course, the type is known, and a "specific" request passes the store check |
| ContentVisibilityHandler.ContentVisibilityHandler.ValidateRequest | src/main/java/org/gooru/nucleus/handlers/classes/processors/repositories/activejdbc/dbhandlers/ContentVisibilityHandler.java:87-133 | a store error throws and a missing class is not found; it continues exactly when the class exists, is current and not archived, and is admitted; then the class and its course are recorded |
| ContentVisibilityHandler.ContentVisibilityHandler.ExecuteRequest | src/main/java/org/gooru/nucleus/handlers/classes/processors/repositories/activejdbc/dbhandlers/ContentVisibilityHandler.java:136-238 | "specific" marks the listed ids of the class's course visible; "all" marks the boundary's not-yet-visible items of the entity's format visible; both answer "updated" with the content-visible event of the request plus the class id; a store error throws; any other type is an invalid request that changes nothing |
| ContentVisibilityHelper.MergedValue | src/main/java/org/gooru/nucleus/handlers/classes/processors/repositories/activejdbc/dbhelpers/ContentVisibilityHelper.java:61-74 | one stored entry merges to the stored value when the request lacks the key, to the request's array followed by the stored array otherwise; a failing cast is the only error |
| ContentVisibilityHelper.FoldStep | src/main/java/org/gooru/nucleus/handlers/classes/processors/repositories/activejdbc/dbhelpers/ContentVisibilityHelper.java:61-74 | folding one more stored entry puts its merged value, or changes nothing for a null value or empty key |
| ContentVisibilityHelper.FoldedUntouched | src/main/java/org/gooru/nucleus/handlers/classes/processors/repositories/activejdbc/dbhelpers/ContentVisibilityHelper.java:61-74 | an entry not folded yet still reads as in the request, so each entry is merged against the request's own list |
| ContentVisibilityHelper.FoldedAll | src/main/java/org/gooru/nucleus/handlers/classes/processors/repositories/activejdbc/dbhelpers/ContentVisibilityHelper.java:59-75 | once every stored entry is folded without a failing cast, the result is the key-wise merge |
| ContentVisibilityHelper.FoldEntry | src/main/java/org/gooru/nucleus/handlers/classes/processors/repositories/activejdbc/dbhelpers/ContentVisibilityHelper.java:61-74 | one step of the forEach: it fails exactly when that entry's cast fails, and otherwise extends the fold by that entry |
| ContentVisibilityHelper.MergeContentVisibility | src/main/java/org/gooru/nucleus/handlers/classes/processors/repositories/activejdbc/dbhelpers/ContentVisibilityHelper.java:54-77 | the loop computes the merge specification: an empty request gives the stored document (null is dereferenced), a null or empty stored document gives the request, otherwise the key-wise merge or a cast error |
| ContentVisibilityHelper.MergeKeepsBothSides | src/main/java/org/gooru/nucleus/handlers/classes/processors/repositories/activejdbc/dbhelpers/ContentVisibilityHelper.java:59-75 | a key only in the request keeps its value, a considered key only in storage keeps its value, a key with arrays on both sides gets the concatenation (request first), and the merge has exactly the request's keys plus the considered stored ones |
| ContentVisibilityHelper.MergeFailsMeaning | src/main/java/org/gooru/nucleus/handlers/classes/processors/repositories/activejdbc/dbhelpers/ContentVisibilityHelper.java:64-71 | the merge fails exactly when some considered stored key is also in the request with a non-null value and one side is not an array |
| ContentVisibilityHelper.StoredVisibility | src/main/java/org/gooru/nucleus/handlers/classes/processors/repositories/activejdbc/dbhelpers/ContentVisibilityHelper.java:22-24 | the stored setting is read as an object when it is one and as null when missing or null |
| ContentVisibilityHelper.UpdateContentVisibility | src/main/java/org/gooru/nucleus/handlers/classes/processors/repositories/activejdbc/dbhelpers/ContentVisibilityHelper.java:22-26 | an unparseable stored document throws; otherwise the answer is the merge of the request with it |
| ContentVisibilityHelper.ExistenceCheck | src/main/java/org/gooru/nucleus/handlers/classes/processors/repositories/activejdbc/dbhelpers/ContentVisibilityHelper.java:79-147 | a list passes exactly when it is empty or the store counts as many matching live rows as it has ids; a store error is an internal error, a mismatch an invalid request |
| ContentVisibilityHelper.ValidatePayloadWithDBMeaning | src/main/java/org/gooru/nucleus/handlers/classes/processors/repositories/activejdbc/dbhelpers/ContentVisibilityHelper.java:28-43 | for any payload whose lists are arrays, null or missing, the check answers without throwing and passes exactly when its units, its lessons, and its collections and assessments together are each empty (a missing or null list counts as empty) or found in full in the course |
| ContentVisibilityHelper.ValidatePayloadWithDBThrowsOnCast | src/main/java/org/gooru/nucleus/handlers/classes/processors/repositories/activejdbc/dbhelpers/ContentVisibilityHelper.java:28-43 | the check throws only when one of the four lists is present but not an array |
| ContentVisibilityHelper.IdSetSize | src/main/java/org/gooru/nucleus/handlers/classes/processors/repositories/activejdbc/dbhelpers/ContentVisibilityHelper.java:138-147 | unique rows have as many distinct ids as rows |
| ContentVisibilityHelper.FilterKeepsUniqueIds | src/main/java/org/gooru/nucleus/handlers/classes/processors/repositories/activejdbc/dbhelpers/ContentVisibilityHelper.java:138-147 | the rows a count filter selects keep unique ids |
| ContentVisibilityHelper.DuplicatesShrinkSet | src/main/java/org/gooru/nucleus/handlers/classes/processors/repositories/activejdbc/dbhelpers/ContentVisibilityHelper.java:142-143 | a list with a repeated id has fewer distinct ids than entries |
| ContentVisibilityHelper.SetOfSeqBound | src/main/java/org/gooru/nucleus/handlers/classes/processors/repositories/activejdbc/dbhelpers/ContentVisibilityHelper.java:142-143 | a list has no more distinct ids than entries |
| ContentVisibilityHelper.SubsetSize | src/main/java/org/gooru/nucleus/handlers/classes/processors/repositories/activejdbc/dbhelpers/ContentVisibilityHelper.java:142-143 | a subset is no larger than its superset |
| ContentVisibilityHelper.DuplicatedIdsNeverMatch | src/main/java/org/gooru/nucleus/handlers/classes/processors/repositories/activejdbc/dbhelpers/ContentVisibilityHelper.java:142-146 | a list naming the same id twice can never match the count, so such a request is always refused |
| CreateClassHandler.ChosenCode | src/main/java/org/gooru/nucleus/handlers/classes/processors/repositories/activejdbc/dbhandlers/CreateClassHandler.java:104-130 | the code chosen is the first of the five attempts that the store reports unused; none is chosen exactly when no attempt is unique |
| CreateClassHandler.ChosenCodeFrom | src/main/java/org/gooru/nucleus/handlers/classes/processors/repositories/activejdbc/dbhandlers/CreateClassHandler.java:108-115 | when the attempts before one failed and that one is unique, that one is chosen |
| CreateClassHandler.StoreErrorMeansNoCode | src/main/java/org/gooru/nucleus/handlers/classes/processors/repositories/activejdbc/dbhandlers/CreateClassHandler.java:120-130 | a failing uniqueness query counts as "not unique", so with the count query failing no code is chosen |
| CreateClassHandler.NewClassIsLiveAndFoundByCode | src/main/java/org/gooru/nucleus/handlers/classes/processors/repositories/activejdbc/dbhandlers/CreateClassHandler.java:68-88 | the row a create adds is live, not archived, of the current version, has the new id, the chosen code and the caller as creator, and its code finds it |
| CreateClassHandler.FoundByCodeAfterAppend | src/main/java/org/gooru/nucleus/handlers/classes/processors/repositories/activejdbc/dbhandlers/CreateClassHandler.java:104-130 | appending a live row with a code no row had makes the code find exactly that row |
| CreateClassHandler.NewRowColumns | src/main/java/org/gooru/nucleus/handlers/classes/processors/repositories/activejdbc/dbhandlers/CreateClassHandler.java:95-102 | the new row holds the code, is not deleted nor archived, has the current version, the new id and the caller as creator, whatever the payload held |
| CreateClassHandler.PayloadAvoidsOwnColumns | src/main/java/org/gooru/nucleus/handlers/classes/processors/repositories/activejdbc/entities/AJEntityClass.java:74-78 | a creatable payload cannot set code, is_deleted, is_archived, gooru_version, creator_id or id |
| CreateClassHandler.OwnColumnsSurvive | src/main/java/org/gooru/nucleus/handlers/classes/processors/repositories/activejdbc/dbhandlers/CreateClassHandler.java:95-102 | the handler's own columns survive the payload being merged in |
| CreateClassHandler.CreateClassHandler.constructor | src/main/java/org/gooru/nucleus/handlers/classes/processors/repositories/activejdbc/dbhandlers/CreateClassHandler.java:33-35 | the handler keeps its context, the random draws and the id the store will assign |
| CreateClassHandler.CreateClassHandler.CheckSanity | src/main/java/org/gooru/nucleus/handlers/classes/processors/repositories/activejdbc/dbhandlers/CreateClassHandler.java:38-59 | an anonymous caller is forbidden and an empty payload is an invalid request, in that order; then a throwing validator escapes, and the request continues exactly when every field is creatable and no validator refuses its value; mandatory fields are not enforced |
| CreateClassHandler.CreateClassHandler.ValidateRequest | src/main/java/org/gooru/nucleus/handlers/classes/processors/repositories/activejdbc/dbhandlers/CreateClassHandler.java:62-65 | nothing is checked against the store: it always continues |
| CreateClassHandler.CreateClassHandler.CheckUniqueness | src/main/java/org/gooru/nucleus/handlers/classes/processors/repositories/activejdbc/dbhandlers/CreateClassHandler.java:120-130 | a code is unique exactly when the count query works and finds no row with it |
| CreateClassHandler.CreateClassHandler.PopulateClassCode | src/main/java/org/gooru/nucleus/handlers/classes/processors/repositories/activejdbc/dbhandlers/CreateClassHandler.java:104-118 | succeeds exactly when a code is chosen, and then sets it on the model; otherwise the model is unchanged |
| CreateClassHandler.CreateClassHandler.AutoPopulate | src/main/java/org/gooru/nucleus/handlers/classes/processors/repositories/activejdbc/dbhandlers/CreateClassHandler.java:95-102 | the model gets modifier, creator and version, then the converted payload over them; a failing converter throws |
| CreateClassHandler.CreateClassHandler.ExecuteRequest | src/main/java/org/gooru/nucleus/handlers/classes/processors/repositories/activejdbc/dbhandlers/CreateClassHandler.java:68-88 | no unique code is an internal error that changes nothing; a converter or store error throws and changes nothing; otherwise the new row is inserted and the answer is "created" with its id and the create event |
| DeleteClassHandler.DeletedClassIsGone | src/main/java/org/gooru/nucleus/handlers/classes/processors/repositories/activejdbc/dbhandlers/DeleteClassHandler.java:77-102 | after the soft delete and the purge the class is no longer found live, no membership row of it remains, other classes are untouched and other classes' memberships remain |
| DeleteClassHandler.DeleteClassHandler.constructor | src/main/java/org/gooru/nucleus/handlers/classes/processors/repositories/activejdbc/dbhandlers/DeleteClassHandler.java:31-33 | the handler keeps its context and starts with no class loaded |
| DeleteClassHandler.DeleteClassHandler.CheckSanity | src/main/java/org/gooru/nucleus/handlers/classes/processors/repositories/activejdbc/dbhandlers/DeleteClassHandler.java:36-50 | a missing class id is answered "not found" (not "invalid request"); an anonymous caller is forbidden; otherwise it continues |
| DeleteClassHandler.DeleteClassHandler.ValidateRequest | src/main/java/org/gooru/nucleus/handlers/classes/processors/repositories/activejdbc/dbhandlers/DeleteClassHandler.java:53-74 | a store error throws; a missing live class is not found with the class id in the message; otherwise the version and archive checks, then the owner check, decide; it continues exactly for a current, unarchived class owned by the caller |
| DeleteClassHandler.DeleteClassHandler.ExecuteRequest | src/main/java/org/gooru/nucleus/handlers/classes/processors/repositories/activejdbc/dbhandlers/DeleteClassHandler.java:77-102 | a failing save throws and changes nothing; otherwise the class is marked deleted with the caller as modifier, and then either the memberships are purged and the answer is "deleted" with the delete event, or the purge fails and the answer is an internal error with the soft delete kept |
| EntityBuilder.ConvertedPayload | src/main/java/org/gooru/nucleus/handlers/classes/processors/repositories/activejdbc/entitybuilders/EntityBuilder.java:24-33 | the converted payload has exactly the payload's keys, and a key without a converter keeps its value |
| EntityBuilder.OverrideUpdate | src/main/java/org/gooru/nucleus/handlers/classes/processors/repositories/activejdbc/entitybuilders/EntityBuilder.java:31 | setting one more key after the earlier ones equals adding it to the set of updates |
| EntityBuilder.Build | src/main/java/org/gooru/nucleus/handlers/classes/processors/repositories/activejdbc/entitybuilders/EntityBuilder.java:20-34 | without a registry nothing changes; with one it throws exactly when some converter throws; otherwise every payload key is set to its converted value and marked dirty; after a throw the columns outside the payload are untouched |
| EventBuilderFactory.CollaboratorUpdatedEvent | src/main/java/org/gooru/nucleus/handlers/classes/processors/events/EventBuilderFactory.java:52-54 | the body is the caller's object, changed in place to hold the class id as well |
| EventBuilderFactory.ContentVisibleEvent | src/main/java/org/gooru/nucleus/handlers/classes/processors/events/EventBuilderFactory.java:62-64 | the body is the caller's request object, changed in place to hold the class id as well |
| EventBuilderFactory.RecoverAnnounce | src/main/java/org/gooru/nucleus/handlers/classes/processors/events/EventBuilderFactory.java:30-59 | an event built by the create, update, delete, invite, join or course-assigned builder is read back by its name and body as exactly the announcement it was built from |
| EventBuilderFactory.AnnounceInjective | src/main/java/org/gooru/nucleus/handlers/classes/processors/events/EventBuilderFactory.java:11-59 | two different announcements are never published as the same event: the builders' names and bodies tell them apart |
| FetchClassHandler.FetchShowsTheRow | src/main/java/org/gooru/nucleus/handlers/classes/processors/repositories/activejdbc/dbhandlers/FetchClassHandler.java:65-71 | the answer holds exactly the row's columns named in the fetch list, with their values: id, creator, code and course are shown, modifier and deletion flag are not |
| FetchClassHandler.FetchClassHandler.constructor | src/main/java/org/gooru/nucleus/handlers/classes/processors/repositories/activejdbc/dbhandlers/FetchClassHandler.java:27-29 | the handler keeps its context and starts with no class loaded |
| FetchClassHandler.FetchClassHandler.CheckSanity | src/main/java/org/gooru/nucleus/handlers/classes/processors/repositories/activejdbc/dbhandlers/FetchClassHandler.java:31-45 | a missing class id is an invalid request; an empty user id is forbidden (an anonymous one is not); otherwise it continues |
| FetchClassHandler.FetchClassHandler.ValidateRequest | src/main/java/org/gooru/nucleus/handlers/classes/processors/repositories/activejdbc/dbhandlers/FetchClassHandler.java:47-63 | a store error is an internal error; otherwise the live class is recorded and the answer is "not found" without it and continue with it |
| FetchClassHandler.FetchClassHandler.ExecuteRequest | src/main/java/org/gooru/nucleus/handlers/classes/processors/repositories/activejdbc/dbhandlers/FetchClassHandler.java:65-71 | the answer is the fetched view of the recorded class |
| FetchClassesForCourseHandler.ListIsTheCourseClasses | src/main/java/org/gooru/nucleus/handlers/classes/processors/repositories/activejdbc/dbhandlers/FetchClassesForCourseHandler.java:54-67 | the listed classes are exactly the fetched views of the course's live classes |
| FetchClassesForCourseHandler.FetchClassesForCourseHandler.constructor | src/main/java/org/gooru/nucleus/handlers/classes/processors/repositories/activejdbc/dbhandlers/FetchClassesForCourseHandler.java:29-31 | the handler keeps its context |
| FetchClassesForCourseHandler.FetchClassesForCourseHandler.CheckSanity | src/main/java/org/gooru/nucleus/handlers/classes/processors/repositories/activejdbc/dbhandlers/FetchClassesForCourseHandler.java:33-47 | a missing course id is an invalid request, an anonymous caller is forbidden, otherwise it continues |
| FetchClassesForCourseHandler.FetchClassesForCourseHandler.ValidateRequest | src/main/java/org/gooru/nucleus/handlers/classes/processors/repositories/activejdbc/dbhandlers/FetchClassesForCourseHandler.java:49-52 | the course-owner authorizer decides: it continues exactly when the caller owns exactly one live course with that id |
| FetchClassesForCourseHandler.FetchClassesForCourseHandler.ExecuteRequest | src/main/java/org/gooru/nucleus/handlers/classes/processors/repositories/activejdbc/dbhandlers/FetchClassesForCourseHandler.java:54-67 | a store error is an internal error; otherwise the answer lists the course's live classes under "classes" |
| FetchClassMembersHandler.BucketsPartition | src/main/java/org/gooru/nucleus/handlers/classes/processors/repositories/activejdbc/dbhandlers/FetchClassMembersHandler.java:104-127 | a user id is in the member bucket iff some membership row carries it; an address is in the invitee bucket iff some row without a user id carries it; the two buckets together are no longer than the rows |
| FetchClassMembersHandler.ClassMembers | src/main/java/org/gooru/nucleus/handlers/classes/processors/repositories/activejdbc/dbhandlers/FetchClassMembersHandler.java:85 | the rows read are exactly the membership rows of the requested class, and none when there is no class id |
| FetchClassMembersHandler.ListingShowsTheClass | src/main/java/org/gooru/nucleus/handlers/classes/processors/repositories/activejdbc/dbhandlers/FetchClassMembersHandler.java:78-146 | the owner bucket is the creator alone, the collaborator bucket is the stored list, the member and invitee buckets hold exactly the class's members and invitees, and the demographics id list starts with the owner and holds every member |
| FetchClassMembersHandler.FetchClassMembersHandler.constructor | src/main/java/org/gooru/nucleus/handlers/classes/processors/repositories/activejdbc/dbhandlers/FetchClassMembersHandler.java:40-42 | the handler keeps its context and starts with no class loaded |
| FetchClassMembersHandler.FetchClassMembersHandler.CheckSanity | src/main/java/org/gooru/nucleus/handlers/classes/processors/repositories/activejdbc/dbhandlers/FetchClassMembersHandler.java:44-58 | a missing class id is an invalid request; an anonymous caller is forbidden; it continues exactly when both are present |
| FetchClassMembersHandler.FetchClassMembersHandler.ValidateRequest | src/main/java/org/gooru/nucleus/handlers/classes/processors/repositories/activejdbc/dbhandlers/FetchClassMembersHandler.java:60-76 | a store error is an internal error; a missing live class is not found; it continues exactly when the caller owns the class, collaborates on it or is a member of it |
| FetchClassMembersHandler.FetchClassMembersHandler.PopulateOwnerInfo | src/main/java/org/gooru/nucleus/handlers/classes/processors/repositories/activejdbc/dbhandlers/FetchClassMembersHandler.java:141-146 | the owner bucket becomes the creator alone and the creator is appended to the id list |
| FetchClassMembersHandler.FetchClassMembersHandler.PopulateCollaboratorsInfo | src/main/java/org/gooru/nucleus/handlers/classes/processors/repositories/activejdbc/dbhandlers/FetchClassMembersHandler.java:129-139 | the collaborator bucket becomes the stored collaborator list and its ids are appended to the id list |
| FetchClassMembersHandler.FetchClassMembersHandler.PopulateMembersInfo | src/main/java/org/gooru/nucleus/handlers/classes/processors/repositories/activejdbc/dbhandlers/FetchClassMembersHandler.java:104-127 | the member bucket gets the rows' user ids, the invitee bucket the addresses of the rows without one, and the id list grows by the user ids in order |
| FetchClassMembersHandler.FetchClassMembersHandler.ExecuteRequest | src/main/java/org/gooru/nucleus/handlers/classes/processors/repositories/activejdbc/dbhandlers/FetchClassMembersHandler.java:78-102 | a store error or an unloaded class throws; otherwise the answer is the four buckets plus the demographics of the id list |
| FetchClassesForUserHandler.OwnerCollaboratorSplit | src/main/java/org/gooru/nucleus/handlers/classes/processors/repositories/activejdbc/dbhandlers/FetchClassesForUserHandler.java:98-107 | an id is in the owner bucket iff a listed class with that id is owned by the caller (ignoring case), in the collaborator bucket iff one is not, and the two buckets together are as long as the id list |
| FetchClassesForUserHandler.UserBuckets | src/main/java/org/gooru/nucleus/handlers/classes/processors/repositories/activejdbc/dbhandlers/FetchClassesForUserHandler.java:92-137 | the owner, collaborator and member buckets hold exactly the ids of the classes the caller owns, collaborates on, or has joined (live classes only) |
| FetchClassesForUserHandler.UserCountsAndDetails | src/main/java/org/gooru/nucleus/handlers/classes/processors/repositories/activejdbc/dbhandlers/FetchClassesForUserHandler.java:139-162 | the count object has an entry exactly for each listed class with joined members, holding that count, and every detail entry is the view of a live listed class |
| FetchClassesForUserHandler.FetchClassesForUserHandler.constructor | src/main/java/org/gooru/nucleus/handlers/classes/processors/repositories/activejdbc/dbhandlers/FetchClassesForUserHandler.java:43-45 | the handler keeps its context and starts with empty id lists |
| FetchClassesForUserHandler.FetchClassesForUserHandler.CheckSanity | src/main/java/org/gooru/nucleus/handlers/classes/processors/repositories/activejdbc/dbhandlers/FetchClassesForUserHandler.java:47-57 | an anonymous caller is forbidden; otherwise it continues |
| FetchClassesForUserHandler.FetchClassesForUserHandler.ValidateRequest | src/main/java/org/gooru/nucleus/handlers/classes/processors/repositories/activejdbc/dbhandlers/FetchClassesForUserHandler.java:59-63 | the request always continues (the authorizer for this request admits everyone) |
| FetchClassesForUserHandler.FetchClassesForUserHandler.PopulateOwnedOrCollaboratedClassesId | src/main/java/org/gooru/nucleus/handlers/classes/processors/repositories/activejdbc/dbhandlers/FetchClassesForUserHandler.java:92-117 | a store error is an internal error with the id list unchanged; a listed class without an id throws; otherwise the owner and collaborator buckets are filled and every listed id is appended to the id list |
| FetchClassesForUserHandler.FetchClassesForUserHandler.PopulateMembershipClassesId | src/main/java/org/gooru/nucleus/handlers/classes/processors/repositories/activejdbc/dbhandlers/FetchClassesForUserHandler.java:119-137 | a store error is an internal error with nothing changed; otherwise the member bucket and the joined-class list become the caller's joined classes, which are appended to the id list |
| FetchClassesForUserHandler.FetchClassesForUserHandler.PopulateClassMemberCounts | src/main/java/org/gooru/nucleus/handlers/classes/processors/repositories/activejdbc/dbhandlers/FetchClassesForUserHandler.java:139-153 | a store error is an internal error; otherwise the count object holds the joined-member count of each listed class that has one |
| FetchClassesForUserHandler.FetchClassesForUserHandler.PopulateClassDetails | src/main/java/org/gooru/nucleus/handlers/classes/processors/repositories/activejdbc/dbhandlers/FetchClassesForUserHandler.java:155-162 | a store error escapes; otherwise the class details are the views of the live listed classes |
| FetchClassesForUserHandler.FetchClassesForUserHandler.PopulateTeacherDetails | src/main/java/org/gooru/nucleus/handlers/classes/processors/repositories/activejdbc/dbhandlers/FetchClassesForUserHandler.java:164-182 | a store error is an internal error; otherwise the teacher details of the joined classes are added and the whole object is the okay answer |
| FetchClassesForUserHandler.FetchClassesForUserHandler.ExecuteRequest | src/main/java/org/gooru/nucleus/handlers/classes/processors/repositories/activejdbc/dbhandlers/FetchClassesForUserHandler.java:65-85 | the stages run in order and the first failing one decides the answer; when none fails the answer is the full view of the caller's classes |
| FieldValidator.BmpLengthIsCount | src/main/java/org/gooru/nucleus/handlers/classes/processors/repositories/activejdbc/validators/FieldValidator.java:17-23 | for a string of Basic Multilingual Plane characters the Java length the bounds compare with is its number of characters |
| FieldValidator.SupplementaryCountsTwice | src/main/java/org/gooru/nucleus/handlers/classes/processors/repositories/activejdbc/validators/FieldValidator.java:17-23 | a character outside the Basic Multilingual Plane, such as an emoji, adds two to the length the bounds compare with |
| FieldValidator.Utf16LengthAppend | src/main/java/org/gooru/nucleus/handlers/classes/processors/repositories/activejdbc/validators/FieldValidator.java:17-23 | the length the bounds compare with is additive over concatenation |
| FieldValidator.StringBoundsDiffer | src/main/java/org/gooru/nucleus/handlers/classes/processors/repositories/activejdbc/validators/FieldValidator.java:17-23 | lengths are counted in UTF-16 units as `String.length()` does; the mandatory string check accepts a non-empty string whose length is exactly the bound while the optional one refuses it; null passes only the optional one |
| FieldValidator.IfPresentWidensByNull | src/main/java/org/gooru/nucleus/handlers/classes/processors/repositories/activejdbc/validators/FieldValidator.java:52-103 | each optional check for objects, arrays and booleans accepts exactly null plus what its mandatory twin accepts, and no mandatory check accepts null |
| FieldValidator.ValidateUuid | src/main/java/org/gooru/nucleus/handlers/classes/processors/repositories/activejdbc/validators/FieldValidator.java:105-112 | a string answers whether it parses as a UUID; any other value, null included, throws |
| FieldValidator.ValidateUuidIfPresent | src/main/java/org/gooru/nucleus/handlers/classes/processors/repositories/activejdbc/validators/FieldValidator.java:114-116 | an absent id passes; a present one passes exactly when it parses as a UUID |
| FieldValidator.ValidateEmail | src/main/java/org/gooru/nucleus/handlers/classes/processors/repositories/activejdbc/validators/FieldValidator.java:120-125 | a string answers whether it matches the address pattern; any other value throws |
| FieldValidator.ValidateElementsMeaning | src/main/java/org/gooru/nucleus/handlers/classes/processors/repositories/activejdbc/validators/FieldValidator.java:74-81 | the element loop accepts iff every element passes; when it throws, the throwing element is preceded only by passing ones |
| FieldValidator.DeepArrayMeaning | src/main/java/org/gooru/nucleus/handlers/classes/processors/repositories/activejdbc/validators/FieldValidator.java:68-95 | the deep check accepts exactly non-empty arrays whose every element passes; the optional one also accepts null |
| HandlerSupport.CheckPayload | src/main/java/org/gooru/nucleus/handlers/classes/processors/repositories/activejdbc/dbhandlers/CreateClassHandler.java:51-58 | a throwing validator escapes; otherwise the verdict is the as-written validator's: it continues exactly when every field of the request is allowed and no validator refuses its value, so the mandatory set plays no part |
| HandlerSupport.VersionCheck | src/main/java/org/gooru/nucleus/handlers/classes/processors/repositories/activejdbc/dbhandlers/DeleteClassHandler.java:61-66 | an unreadable version throws; the check continues exactly for a current, unarchived class and otherwise answers "archived or incorrect version" as an invalid request |
| HandlerSupport.FindById | src/main/java/org/gooru/nucleus/handlers/classes/processors/repositories/activejdbc/dbhandlers/FetchClassHandler.java:50 | a row found has the requested id and is not deleted; a null id finds nothing |
| InviteStudentToClassHandler.RemoveFirst | src/main/java/org/gooru/nucleus/handlers/classes/processors/repositories/activejdbc/dbhandlers/InviteStudentToClassHandler.java:130 | removing an address absent from the list leaves it as it was; removing a present one shortens it by exactly one |
| InviteStudentToClassHandler.RemoveFirstMeaning | src/main/java/org/gooru/nucleus/handlers/classes/processors/repositories/activejdbc/dbhandlers/InviteStudentToClassHandler.java:130 | in a list without repeats, the removal keeps it repeat-free and drops exactly the removed address |
| InviteStudentToClassHandler.RemoveEachMeaning | src/main/java/org/gooru/nucleus/handlers/classes/processors/repositories/activejdbc/dbhandlers/InviteStudentToClassHandler.java:128-131 | in a list without repeats, removing each found address keeps exactly the invitees that no found row names, still without repeats |
| InviteStudentToClassHandler.PrunedMeaning | src/main/java/org/gooru/nucleus/handlers/classes/processors/repositories/activejdbc/dbhandlers/InviteStudentToClassHandler.java:116-134 | for distinct, plain string invitees the pruned list is repeat-free and holds exactly the invitees the class has no membership row for, including the "none found" and "all found" shortcuts |
| InviteStudentToClassHandler.FoundIffHasRow | src/main/java/org/gooru/nucleus/handlers/classes/processors/repositories/activejdbc/dbhandlers/InviteStudentToClassHandler.java:118-120 | an invitee's address is among the rows the query finds iff the class has a membership row for it |
| InviteStudentToClassHandler.FullQueryCoversAll | src/main/java/org/gooru/nucleus/handlers/classes/processors/repositories/activejdbc/dbhandlers/InviteStudentToClassHandler.java:124-126 | when the query finds as many rows as there are invitees, every invitee already has a row, so returning nothing loses nobody |
| InviteStudentToClassHandler.FreshBatchSucceeds | src/main/java/org/gooru/nucleus/handlers/classes/processors/repositories/activejdbc/dbhandlers/InviteStudentToClassHandler.java:136-143 | a batch of addresses the class has no row for does not clash, and afterwards every address has a row, the keys stay unique and every new row is an invitation without a user id |
| InviteStudentToClassHandler.PrunedBatchSucceeds | src/main/java/org/gooru/nucleus/handlers/classes/processors/repositories/activejdbc/dbhandlers/InviteStudentToClassHandler.java:96-109 | saving the pruned list never clashes, and afterwards every original invitee has a row for the class |
| InviteStudentToClassHandler.InviteStudentToClassHandler.constructor | src/main/java/org/gooru/nucleus/handlers/classes/processors/repositories/activejdbc/dbhandlers/InviteStudentToClassHandler.java:34-36 | the handler keeps its context |
| InviteStudentToClassHandler.InviteStudentToClassHandler.CheckSanity | src/main/java/org/gooru/nucleus/handlers/classes/processors/repositories/activejdbc/dbhandlers/InviteStudentToClassHandler.java:38-73 | a missing class id and an empty payload are invalid requests and an anonymous caller is forbidden, in that order; then a throwing validator escapes and the as-written payload check decides, so a request that continues holds only invitees and creator_system, while a missing invitee list is let through |
| InviteStudentToClassHandler.InviteStudentToClassHandler.ValidateRequest | src/main/java/org/gooru/nucleus/handlers/classes/processors/repositories/activejdbc/dbhandlers/InviteStudentToClassHandler.java:75-94 | a store error escapes; a missing live class is not found; it continues exactly for a current, unarchived class the caller owns or collaborates on |
| InviteStudentToClassHandler.InviteStudentToClassHandler.PruneAlreadyInvitedUsers | src/main/java/org/gooru/nucleus/handlers/classes/processors/repositories/activejdbc/dbhandlers/InviteStudentToClassHandler.java:116-134 | a store error escapes; otherwise the result is the invitees pruned by the rows the query finds |
| InviteStudentToClassHandler.InviteStudentToClassHandler.RemoveMembers | src/main/java/org/gooru/nucleus/handlers/classes/processors/repositories/activejdbc/dbhandlers/InviteStudentToClassHandler.java:128-131 | the loop removes one occurrence of each found row's address, in row order |
| InviteStudentToClassHandler.InviteStudentToClassHandler.SaveInvitations | src/main/java/org/gooru/nucleus/handlers/classes/processors/repositories/activejdbc/dbhandlers/InviteStudentToClassHandler.java:136-155 | a store error or a clashing key is an internal error that changes nothing; otherwise one invited row per address is appended and the answer is "invited" with the invitation event |
| InviteStudentToClassHandler.InviteStudentToClassHandler.ExecuteRequest | src/main/java/org/gooru/nucleus/handlers/classes/processors/repositories/activejdbc/dbhandlers/InviteStudentToClassHandler.java:96-109 | a missing payload, a field of the wrong type, a missing invitee list or a failed query throws with nothing changed; nothing left after pruning answers "invited" without an event; otherwise the pruned invitees are saved |
| JoinClassByStudentHandler.NewMemberErrors | src/main/java/org/gooru/nucleus/handlers/classes/processors/repositories/activejdbc/dbhandlers/JoinClassByStudentHandler.java:119-128 | the new membership has no errors exactly when its class id, user id and the joined status all convert; every error sits under the class id key |
| JoinClassByStudentHandler.NewMemberRow | src/main/java/org/gooru/nucleus/handlers/classes/processors/repositories/activejdbc/dbhandlers/JoinClassByStudentHandler.java:118-125 | the saved row exists exactly when there is a class id and an e-mail address, and then holds that class, that address, the joined status and the caller's id |
| JoinClassByStudentHandler.PromotedAsWritten | src/main/java/org/gooru/nucleus/handlers/classes/processors/repositories/activejdbc/dbhandlers/JoinClassByStudentHandler.java:129-134 | the promotion as written keeps the row's key and user id and only sets the joined status |
| JoinClassByStudentHandler.Promoted | src/main/java/org/gooru/nucleus/handlers/classes/processors/repositories/activejdbc/dbhandlers/JoinClassByStudentHandler.java:129-134 | the corrected promotion keeps the row's key, sets the joined status and links the row to the joining user |
| JoinClassByStudentHandler.PromotionAsWrittenLosesStudent | src/main/java/org/gooru/nucleus/handlers/classes/processors/repositories/activejdbc/dbhandlers/JoinClassByStudentHandler.java:129-134 | after the promotion as written, the class is not among the student's joined classes and the remove-student filter misses the row |
| JoinClassByStudentHandler.JoinedStudentIsVisible | src/main/java/org/gooru/nucleus/handlers/classes/processors/repositories/activejdbc/dbhandlers/JoinClassByStudentHandler.java:115-154 | a joined row with the student's id makes the class one of the student's joined classes, is the row the remove-student filter selects, and is the row a second join finds by e-mail |
| JoinClassByStudentHandler.PromotionReplacesRow | src/main/java/org/gooru/nucleus/handlers/classes/processors/repositories/activejdbc/dbhandlers/JoinClassByStudentHandler.java:133-143 | the promotion replaces the invited row in place: keys stay unique, the promoted row is present, and every other row is unchanged |
| JoinClassByStudentHandler.PromotedStudentIsVisible | src/main/java/org/gooru/nucleus/handlers/classes/processors/repositories/activejdbc/dbhandlers/JoinClassByStudentHandler.java:129-154 | after the corrected promotion the class is among the student's joined classes, the remove-student filter selects the row, and a lookup by e-mail finds it |
| JoinClassByStudentHandler.SecondJoinIsNoOp | src/main/java/org/gooru/nucleus/handlers/classes/processors/repositories/activejdbc/dbhandlers/JoinClassByStudentHandler.java:131-140 | a row that is already joined is not taken for an invitation, so a second join writes nothing |
| JoinClassByStudentHandler.JoinClassByStudentHandler.constructor | src/main/java/org/gooru/nucleus/handlers/classes/processors/repositories/activejdbc/dbhandlers/JoinClassByStudentHandler.java:34-36 | the handler keeps its context and starts with no class, class id or membership |
| JoinClassByStudentHandler.JoinClassByStudentHandler.CheckSanity | src/main/java/org/gooru/nucleus/handlers/classes/processors/repositories/activejdbc/dbhandlers/JoinClassByStudentHandler.java:38-78 | a missing class code is an invalid request, an anonymous caller and a caller without an e-mail address holding "@" are forbidden, a null payload is an invalid request, and then the as-written payload check decides |
| JoinClassByStudentHandler.JoinClassByStudentHandler.ValidateRequest | src/main/java/org/gooru/nucleus/handlers/classes/processors/repositories/activejdbc/dbhandlers/JoinClassByStudentHandler.java:80-113 | a store error escapes; no live class with the code is not found; a class without an id throws; then the version check, the membership lookup by e-mail and the open-class-or-invited authorizer decide, and the class, its id and the membership are kept |
| JoinClassByStudentHandler.JoinClassByStudentHandler.BuildNewMember | src/main/java/org/gooru/nucleus/handlers/classes/processors/repositories/activejdbc/dbhandlers/JoinClassByStudentHandler.java:117-128 | a missing payload or a payload field of the wrong type throws; conversion errors end the request with a validation error; otherwise the new model holds exactly the new membership row |
| JoinClassByStudentHandler.JoinClassByStudentHandler.JoinAsNewMember | src/main/java/org/gooru/nucleus/handlers/classes/processors/repositories/activejdbc/dbhandlers/JoinClassByStudentHandler.java:117-128 | the new row is appended and the answer is "created" with the join event, unless the model has errors, the row has no key, it clashes with an existing row or the save fails |
| JoinClassByStudentHandler.JoinClassByStudentHandler.JoinAsInvited | src/main/java/org/gooru/nucleus/handlers/classes/processors/repositories/activejdbc/dbhandlers/JoinClassByStudentHandler.java:129-154 | as written: the invited row is marked joined and keeps its empty user id; a failed save throws and changes nothing; when the driver converts the joined status the row is replaced and the answer is "created" with the join event; otherwise the row is saved unchanged and the answer is "created" or the validation error on class_id |
| JoinClassByStudentHandler.JoinClassByStudentHandler.ExecuteRequest | src/main/java/org/gooru/nucleus/handlers/classes/processors/repositories/activejdbc/dbhandlers/JoinClassByStudentHandler.java:115-154 | no membership joins as a new member; a membership that is not invited answers "joined" without writing; an invited one is marked joined with its user id left as it was, with the same three outcomes as JoinAsInvited |
| PayloadValidator.CheckEntries | src/main/java/org/gooru/nucleus/handlers/classes/processors/repositories/activejdbc/validators/PayloadValidator.java:14-25 | the entry loop throws exactly when some allowed entry's validator throws, with that validator's exception; otherwise it reports "Field not allowed" for each key outside the allow-list and "Invalid value" for each allowed key whose validator refuses it, and nothing else |
| PayloadValidator.ValidatePayload | src/main/java/org/gooru/nucleus/handlers/classes/processors/repositories/activejdbc/validators/PayloadValidator.java:12-35 | as written: throws exactly when a validator throws; otherwise the entry errors, plus missing-field errors only for an empty mandatory set (so none), with null for no errors |
| PayloadValidator.ValidatePayloadWithMandatory | src/main/java/org/gooru/nucleus/handlers/classes/processors/repositories/activejdbc/validators/PayloadValidator.java:26-33 | as intended: throws exactly when a validator throws; otherwise the entry errors plus "Missing field" for each absent or null mandatory key, with null for no errors |
| PayloadValidator.AsWrittenMeaning | src/main/java/org/gooru/nucleus/handlers/classes/processors/repositories/activejdbc/validators/PayloadValidator.java:12-35 | the result names only input keys and is never an empty object; the payload passes iff every key is allowed and no validator refuses its value; every key outside the allow-list is reported |
| PayloadValidator.AsWrittenNeverReportsMissing | src/main/java/org/gooru/nucleus/handlers/classes/processors/repositories/activejdbc/validators/PayloadValidator.java:26-33 | as written, a key absent from the input is never reported, whatever the mandatory set |
| PayloadValidator.MissingMandatoryCounterexample | src/main/java/org/gooru/nucleus/handlers/classes/processors/repositories/activejdbc/validators/PayloadValidator.java:26-33 | an invitation payload without its mandatory invitee list passes as written, while the intended check reports the list as missing |
| PayloadValidator.IntendedReportsMissing | src/main/java/org/gooru/nucleus/handlers/classes/processors/repositories/activejdbc/validators/PayloadValidator.java:26-33 | as intended, each absent or null key of a non-empty mandatory set is reported as "Missing field" |
| PayloadValidator.AsWrittenAgreesWhenMandatoryPresent | src/main/java/org/gooru/nucleus/handlers/classes/processors/repositories/activejdbc/validators/PayloadValidator.java:26-33 | when every mandatory key is present and not null, the as-written and the intended validator give the same answer |
| ProcessorContextHelper.IdIsUser | src/main/java/org/gooru/nucleus/handlers/classes/processors/ProcessorContextHelper.java:15-32 | every valid entity id is a valid user id; "anonymous" is a valid user id but never a valid entity id |
| ProcessorContextHelper.ValidatePrefsForEmail | src/main/java/org/gooru/nucleus/handlers/classes/processors/ProcessorContextHelper.java:42-49 | the check throws exactly when the e-mail preference is neither null nor a string, and passes exactly when it is a string holding "@" |
| ProcessorContextHelper.ContextWithCourseNeedsUuids | src/main/java/org/gooru/nucleus/handlers/classes/processors/ProcessorContextHelper.java:51-69 | the course-and-class check passes only when both ids are UUIDs, so never with an anonymous class id |
| RemoveStudentHandler.RemovalIsExact | src/main/java/org/gooru/nucleus/handlers/classes/processors/repositories/activejdbc/entities/AJClassMember.java:60-61 | after the removal the student has no joined row of the class and the class is not among the student's joined classes; every invitation and every row of another class or user is kept |
| RemoveStudentHandler.RemoveStudentHandler.constructor | src/main/java/org/gooru/nucleus/handlers/classes/processors/repositories/activejdbc/dbhandlers/RemoveStudentHandler.java:25-27 | the handler keeps its context and the removal event |
| RemoveStudentHandler.RemoveStudentHandler.CheckSanity | src/main/java/org/gooru/nucleus/handlers/classes/processors/repositories/activejdbc/dbhandlers/RemoveStudentHandler.java:29-47 | a missing class id is an invalid request; an anonymous caller is forbidden; it continues exactly when both are present |
| RemoveStudentHandler.RemoveStudentHandler.ValidateRequest | src/main/java/org/gooru/nucleus/handlers/classes/processors/repositories/activejdbc/dbhandlers/RemoveStudentHandler.java:49-69 | a store error escapes; a missing live class is not found; it continues exactly for a current, unarchived class the caller owns or collaborates on |
| RemoveStudentHandler.RemoveStudentHandler.ExecuteRequest | src/main/java/org/gooru/nucleus/handlers/classes/processors/repositories/activejdbc/dbhandlers/RemoveStudentHandler.java:71-86 | a store error is an internal error that changes nothing; otherwise the student's joined row is deleted and the answer is "student removed" with the removal event |
| Store.FindLiveClass | src/main/java/org/gooru/nucleus/handlers/classes/processors/repositories/activejdbc/entities/AJEntityClass.java:59 | the row found is a non-deleted class with the id and is in the table; nothing is found exactly when no such row exists |
| Store.FindLiveClassByCode | src/main/java/org/gooru/nucleus/handlers/classes/processors/repositories/activejdbc/entities/AJEntityClass.java:65 | the row found is a non-deleted class with the code; nothing is found exactly when no such row exists |
| Store.CodeCount | src/main/java/org/gooru/nucleus/handlers/classes/processors/repositories/activejdbc/entities/AJEntityClass.java:70 | the count is zero exactly when no class, deleted or not, has the code |
| Store.ClassesOfCourse | src/main/java/org/gooru/nucleus/handlers/classes/processors/repositories/activejdbc/entities/AJEntityClass.java:64 | exactly the non-deleted classes of the course |
| Store.OwnedOrCollaborated | src/main/java/org/gooru/nucleus/handlers/classes/processors/repositories/activejdbc/entities/AJEntityClass.java:61-63 | exactly the non-deleted classes the user created or collaborates on |
| Store.ClassesWithIds | src/main/java/org/gooru/nucleus/handlers/classes/processors/repositories/activejdbc/entities/AJEntityClass.java:60 | exactly the non-deleted classes whose id is in the list |
| Store.MembershipsOf | src/main/java/org/gooru/nucleus/handlers/classes/processors/repositories/activejdbc/entities/AJClassMember.java:41 | exactly the rows of the class for the user |
| Store.MemberByEmail | src/main/java/org/gooru/nucleus/handlers/classes/processors/repositories/activejdbc/entities/AJClassMember.java:42 | the row found is the class's row for the address; nothing is found exactly when no such row exists |
| Store.MembersWithEmails | src/main/java/org/gooru/nucleus/handlers/classes/processors/repositories/activejdbc/entities/AJClassMember.java:43-44 | exactly the rows of the class whose address is in the list |
| Store.MembersOfClass | src/main/java/org/gooru/nucleus/handlers/classes/processors/repositories/activejdbc/entities/AJClassMember.java:45 | exactly the rows of the class |
| Store.JoinedClassIds | src/main/java/org/gooru/nucleus/handlers/classes/processors/repositories/activejdbc/entities/AJClassMember.java:47-50 | a class id is listed iff the user has a joined row of it and the class is live |
| Store.MemberCounts | src/main/java/org/gooru/nucleus/handlers/classes/processors/repositories/activejdbc/entities/AJClassMember.java:51-54 | the counts have an entry exactly for each listed class with joined members, holding the number of its joined rows |
| Store.PurgedMembers | src/main/java/org/gooru/nucleus/handlers/classes/processors/repositories/activejdbc/entities/AJClassMember.java:46 | exactly the rows of other classes remain |
| Store.RemoveJoined | src/main/java/org/gooru/nucleus/handlers/classes/processors/repositories/activejdbc/entities/AJClassMember.java:60-61 | exactly the rows the remove-student filter does not select remain |
| Store.InsertInvitedKeepsKeysUnique | src/main/java/org/gooru/nucleus/handlers/classes/processors/repositories/activejdbc/entities/AJClassMember.java:37-40 | a successful batch keeps the member keys unique |
| Store.VisibleItems | src/main/java/org/gooru/nucleus/handlers/classes/processors/repositories/activejdbc/entities/AJEntityCollection.java:25-32 | exactly the live items of the course that are visible to the class and match the format filter |
| Store.MarkVisibleIdempotent | src/main/java/org/gooru/nucleus/handlers/classes/processors/repositories/activejdbc/entities/AJEntityCollection.java:45-77 | marking twice is the same as marking once; a targeted item is then visible to the class exactly when its class_visibility was not NULL, and an item whose column is NULL is left as it was |
| Store.Database.constructor | src/main/java/org/gooru/nucleus/handlers/classes/processors/repositories/activejdbc/transactions/TransactionExecutor.java:36-74 | the database starts with the given tables and failure set |
| Store.Database.SaveClass | src/main/java/org/gooru/nucleus/handlers/classes/processors/repositories/activejdbc/entities/AJEntityClass.java:72-85 | a failing save throws and changes nothing; an insert appends the new row or throws on a taken id; an update with an id overlays the changes and reports whether a row was touched; an update without an id throws |
| Store.Database.SaveMember | src/main/java/org/gooru/nucleus/handlers/classes/processors/repositories/activejdbc/entities/AJClassMember.java:18-35 | a failing save or a row without a key throws and changes nothing; an insert appends the row unless its key is taken; an update replaces the row with the same key |
| Store.Database.WriteMembers | src/main/java/org/gooru/nucleus/handlers/classes/processors/repositories/activejdbc/entities/AJClassMember.java:37-46 | a failing or clashing write changes nothing; otherwise the member table becomes the new rows |
| Store.Database.UpdateVisibility | src/main/java/org/gooru/nucleus/handlers/classes/processors/repositories/activejdbc/entities/AJEntityCollection.java:45-77 | a failing update changes nothing; otherwise the class id is appended to each targeted item's class_visibility array, a NULL column stays NULL, and no other item changes |
| TransactionExecutor.ReadOnlyHandlers | src/main/java/org/gooru/nucleus/handlers/classes/processors/repositories/activejdbc/transactions/TransactionExecutor.java:42-44 | a handler asks for a read-only connection exactly when it is one of the four fetch handlers or the visible-content handler |
| TransactionExecutor.CheckSanity | src/main/java/org/gooru/nucleus/handlers/classes/processors/repositories/activejdbc/transactions/TransactionExecutor.java:27 | dispatching checkSanity keeps the handler's consistency condition |
| TransactionExecutor.ValidateRequest | src/main/java/org/gooru/nucleus/handlers/classes/processors/repositories/activejdbc/transactions/TransactionExecutor.java:46 | dispatching validateRequest keeps the handler's consistency condition |
| TransactionExecutor.ExecuteRequest | src/main/java/org/gooru/nucleus/handlers/classes/processors/repositories/activejdbc/transactions/TransactionExecutor.java:48 | a read-only handler's executeRequest leaves the store unchanged |
| TransactionExecutor.ConnectionLogShape | src/main/java/org/gooru/nucleus/handlers/classes/processors/repositories/activejdbc/transactions/TransactionExecutor.java:36-74 | the connection is opened first and closed last; the transaction ends once, by a commit exactly when committed and otherwise by a rollback, after it began; a read-only connection is made read-write again before it closes |
| TransactionExecutor.ExecuteWithTransaction | src/main/java/org/gooru/nucleus/handlers/classes/processors/repositories/activejdbc/transactions/TransactionExecutor.java:36-74 | an exception in either phase becomes an internal error carrying its message; a validation that does not continue is the answer; otherwise executeRequest's result is; the transaction commits exactly after a successful executeRequest and otherwise the store is rolled back to the snapshot |
| TransactionExecutor.ExecuteTransaction | src/main/java/org/gooru/nucleus/handlers/classes/processors/repositories/activejdbc/transactions/TransactionExecutor.java:25-34 | an exception in checkSanity escapes and a checkSanity that does not continue is answered without opening a connection; otherwise the answer is that of the last phase run (an exception in a phase becomes an internal error with its message), the connection follows the transaction's log, it commits exactly when executeRequest returns a successful result, and without a commit the store is unchanged |
| UpdateCollaboratorForClassHandler.ChangesAfterBuild | src/main/java/org/gooru/nucleus/handlers/classes/processors/repositories/activejdbc/dbhandlers/UpdateCollaboratorForClassHandler.java:88-90 | a model loaded from the row, given the caller as modifier and built from the payload writes back exactly the modifier and the converted payload, and keeps the row's id |
| UpdateCollaboratorForClassHandler.CollaboratorsReplaced | src/main/java/org/gooru/nucleus/handlers/classes/processors/repositories/activejdbc/dbhandlers/UpdateCollaboratorForClassHandler.java:86-105 | storing a collaborator list replaces it: the class's collaborators are then exactly the list, the collaborator check admits exactly the listed users, and the owner is unchanged |
| UpdateCollaboratorForClassHandler.UpdateCollaboratorForClassHandler.BuildModel | src/main/java/org/gooru/nucleus/handlers/classes/processors/repositories/activejdbc/dbhandlers/UpdateCollaboratorForClassHandler.java:88-90 | building throws exactly when a converter throws; otherwise the model's changes are the modifier and the converted payload and it keeps the row's id |
| UpdateCollaboratorForClassHandler.UpdateCollaboratorForClassHandler.constructor | src/main/java/org/gooru/nucleus/handlers/classes/processors/repositories/activejdbc/dbhandlers/UpdateCollaboratorForClassHandler.java:31-33 | the handler keeps its context and starts with no class loaded |
| UpdateCollaboratorForClassHandler.UpdateCollaboratorForClassHandler.CheckSanity | src/main/java/org/gooru/nucleus/handlers/classes/processors/repositories/activejdbc/dbhandlers/UpdateCollaboratorForClassHandler.java:35-64 | a missing class id and an empty payload are invalid requests and an anonymous caller is forbidden, in that order; then a throwing validator escapes and the as-written payload check decides, so a request that continues holds exactly the collaborator key |
| UpdateCollaboratorForClassHandler.UpdateCollaboratorForClassHandler.ValidateRequest | src/main/java/org/gooru/nucleus/handlers/classes/processors/repositories/activejdbc/dbhandlers/UpdateCollaboratorForClassHandler.java:66-84 | a store error escapes; a missing live class is not found; the class is kept; it continues exactly for a current, unarchived class owned by the caller |
| UpdateCollaboratorForClassHandler.UpdateCollaboratorForClassHandler.ExecuteRequest | src/main/java/org/gooru/nucleus/handlers/classes/processors/repositories/activejdbc/dbhandlers/UpdateCollaboratorForClassHandler.java:86-105 | an unloaded class, a missing payload, a throwing converter or a failed save throws with nothing changed; otherwise the class row gets the modifier and the new list and the answer is "updated" with the class-update event |
| Utils.ConvertListToPostgresArrayStringRepresentation | src/main/java/org/gooru/nucleus/handlers/classes/processors/repositories/activejdbc/Utils.java:11-30 | the loop writes the array literal of the list, "{}" for an empty list |
| Utils.LiteralLength | src/main/java/org/gooru/nucleus/handlers/classes/processors/repositories/activejdbc/Utils.java:11-30 | a literal of n elements has length 2 plus each element's length and quotes plus n - 1 commas |
| Utils.RoundTrip | src/main/java/org/gooru/nucleus/handlers/classes/processors/repositories/activejdbc/Utils.java:11-30 | reading the literal back as a Postgres text array gives the original list when no element holds a quote or a comma |
| VisibleContentHelper.PopulateVisibleAssessments | src/main/java/org/gooru/nucleus/handlers/classes/processors/repositories/activejdbc/dbhelpers/VisibleContentHelper.java:36-44 | a store error leaves the result untouched; otherwise only the assessments key is set, to the ids of the course's live items that are not collections and are marked visible to the class |
| VisibleContentHelper.VisibleAssessmentIdsMeaning | src/main/java/org/gooru/nucleus/handlers/classes/processors/repositories/activejdbc/dbhelpers/VisibleContentHelper.java:36-44 | an id is listed exactly when some live item of the course with that id is visible to the class and is not a collection |
| VisibleContentHelper.PopulateVisibleItems | src/main/java/org/gooru/nucleus/handlers/classes/processors/repositories/activejdbc/dbhelpers/VisibleContentHelper.java:54-72 | a store error leaves the result untouched; otherwise the assessments and collections keys are set to the visible items split by format, and nothing else changes |
| VisibleContentHelper.AssessmentBucketMeaning | src/main/java/org/gooru/nucleus/handlers/classes/processors/repositories/activejdbc/dbhelpers/VisibleContentHelper.java:62-63 | an id lands among the assessments exactly when some visible row with that id is an assessment or an external assessment |
| VisibleContentHelper.CollectionBucketMeaning | src/main/java/org/gooru/nucleus/handlers/classes/processors/repositories/activejdbc/dbhelpers/VisibleContentHelper.java:64-65 | an id lands among the collections exactly when some visible row with that id is a collection; rows of any other format are dropped |
| VisibleContentHelper.UnitLessonsMeaning | src/main/java/org/gooru/nucleus/handlers/classes/processors/repositories/activejdbc/dbhelpers/VisibleContentHelper.java:92-103 | a unit appears exactly when some statistics row names it, and its lesson set holds exactly the lessons those rows name under it |
| VisibleContentHelper.LastCountWinsCounterexample | src/main/java/org/gooru/nucleus/handlers/classes/processors/repositories/activejdbc/dbhelpers/VisibleContentHelper.java:110-115 | as written, an assessment row and an external-assessment row of one lesson overwrite each other's count, so the lesson's count depends on row order (3 one way, 2 the other) instead of their sum 5 |
| VisibleContentHelper.SummedCountsIgnoreOrder | src/main/java/org/gooru/nucleus/handlers/classes/processors/repositories/activejdbc/dbhelpers/VisibleContentHelper.java:110-115 | with counts summed per lesson, swapping any two adjacent statistics rows leaves every lesson's assessment count unchanged |
| VisibleContentHelper.CountedLessonsHaveRows | src/main/java/org/gooru/nucleus/handlers/classes/processors/repositories/activejdbc/dbhelpers/VisibleContentHelper.java:110-115 | every lesson that gets an assessment count has an assessment or external-assessment row |
| VisibleContentHelper.AsWrittenAgreesWithoutSharedLessons | src/main/java/org/gooru/nucleus/handlers/classes/processors/repositories/activejdbc/dbhelpers/VisibleContentHelper.java:110-115 | when no two assessment-side rows share a lesson, the last-put counts equal the summed counts |
| VisibleContentHelper.LessonArray | src/main/java/org/gooru/nucleus/handlers/classes/processors/repositories/activejdbc/dbhelpers/VisibleContentHelper.java:122-131 | every lesson of the set appears exactly once, with its assessment and collection counts, zero where a lesson has none, and nothing else appears |
| VisibleContentHelper.UnitArray | src/main/java/org/gooru/nucleus/handlers/classes/processors/repositories/activejdbc/dbhelpers/VisibleContentHelper.java:119-138 | every unit appears exactly once with its complete lesson list, and no other unit appears |
| VisibleContentHelper.CourseVisibleStatistics | src/main/java/org/gooru/nucleus/handlers/classes/processors/repositories/activejdbc/dbhelpers/VisibleContentHelper.java:86-145 | the document holds one course object with the course id and one unit entry per unit named by the rows, each listing its lessons with the assessment count put last for the lesson (a later row overwrites an earlier one) and their collection counts |
| VisibleContentHandler.LoadedClassVerdict | src/main/java/org/gooru/nucleus/handlers/classes/processors/repositories/activejdbc/dbhandlers/VisibleContentHandler.java:53-80 | the request goes through exactly when the class is current, not archived, tied to a course and the caller is its owner, a collaborator or a member; a class without a course is refused as invalid; an exception escapes exactly on a version read error or a failing member lookup |
| VisibleContentHandler.VisibleContentHandler.constructor | src/main/java/org/gooru/nucleus/handlers/classes/processors/repositories/activejdbc/dbhandlers/VisibleContentHandler.java:29-32 | the handler starts with its context and no class or course loaded |
| VisibleContentHandler.VisibleContentHandler.CheckSanity | src/main/java/org/gooru/nucleus/handlers/classes/processors/repositories/activejdbc/dbhandlers/VisibleContentHandler.java:34-51 | a missing class id is an invalid request; an anonymous caller is forbidden; otherwise processing continues |
| VisibleContentHandler.VisibleContentHandler.ValidateRequest | src/main/java/org/gooru/nucleus/handlers/classes/processors/repositories/activejdbc/dbhandlers/VisibleContentHandler.java:53-80 | a store error escapes; a missing class is not found; a found class is judged by the loaded-class verdict; success leaves class and course loaded |
| VisibleContentHandler.VisibleContentHandler.ExecuteRequest | src/main/java/org/gooru/nucleus/handlers/classes/processors/repositories/activejdbc/dbhandlers/VisibleContentHandler.java:82-102 | the answer names the class's setting and adds nothing for "visible_all", the visible assessments for "visible_collection", and all visible items split by format for "visible_none"; an unknown setting gives an empty body; a store error escapes |
| VisibleContentHandler.VisibleListsMeaning | src/main/java/org/gooru/nucleus/handlers/classes/processors/repositories/activejdbc/dbhelpers/VisibleContentHelper.java:36-72 | the listed assessments are exactly the visible live non-collection items of the course, and the split lists hold exactly the visible items of each side |

## Left out

- Transport and bootstrap are not part of this model: the event-bus verticle, the message processor, start-up and shut-down, and configuration.
- Each SQL query is a function over the in-memory tables. Postgres semantics beyond that are not modelled, nor are query errors caused by malformed UUID text.
- Opening and closing the connection, and an `SQLException` from setting read-only mode, are not modelled. The executor's connection steps are kept as an action log.
- Concurrency between requests is not modelled. Requests run one at a time.
- The message text of the resource bundle and all logging are left out. A response carries a message key.
- `MessageResponseFactory` builds a `MessageResponse` through a builder that is not part of this model. A response is a `Responses.Response` value, and the optional response of an `ExecutionResult` is an `Option`. A validation-failed response stands for the bad-request response with the error object.
- `FieldConverter` (PGobject wrapping) is not part of this model. A converter either yields the value or throws, depending on a parser oracle.
- Parsing UUIDs, e-mail addresses, 32-bit integers and ISO dates is done by the oracles in `Common.Parsers`. The current date that `validateDateWithFormat` compares with is part of that oracle too.
- `SecureRandom` in the class-code generator is replaced by a sequence of random draws, each an index into the alphabet. The create handler takes them as a parameter.
- Several queries that are not part of this model are oracles passed to the handlers: the demographic summaries of the members listing, the teachers of the user's classes, the class-setting validation of content visibility (`validatePayloadWithClassSetting`), the non-visible item queries and the class's content-visibility setting.
- The `CONTENT_VISIBILITY_TYPE_*` constants of the class entity do not appear in the entity file shown. The model uses the setting names "visible_all", "visible_collection" and "visible_none".
- The content-visibility scope constants that the content-visibility handler reads from the class entity (`CV_SCOPE`, `CV_TYPE`, `CV_TYPE_ALL`, `CV_TYPE_SPECIFIC`, `CV_BOUNDRY`, `CV_COURSE_ID`, `CV_UNIT_ID`, `CV_LESSON_ID`, `CV_ENTITY`, `CV_ENTITY_ALL`) do not appear in the entity file shown either. The model assumes the values "scope", "type", "all", "specific", "boundry", "course_id", "unit_id", "lesson_id", "entity" and "all". `ContentVisibilityHandler.SpecificAlwaysRefused` depends on them only through "scope" not being one of the four list names "units", "lessons", "collections" and "assessments".
- `validatePayloadWithDB` is called with three arguments by the content-visibility handler, but only its two-argument form is shown. The model uses the two-argument form for both calls.
- `ProcessorContext` as shown has no accessors for the class code, course id or student id that the handlers use. The model carries them as fields of the context.
- A phase run out of order, or a null id or setting read in `executeRequest`, is modelled as a null-reference exception (`Threw`).
- `dbhandlers/UpdateClassHandler.java` is a stub whose phases return null. It is not modelled.
- The join handler reads the caller's e-mail from the preferences under `MessageConstants.EMAIL_ID`, while the helper of the processor context reads `MessageConstants.EMAIL`. Neither constant is in the constants file shown. The model reads both under "email".
- The event builder that the remove-student handler returns is not shown. It is a constructor parameter of `RemoveStudentHandler`.
- The event builders are lambdas that the code runs when the event is published. The model builds the event when the handler answers, so for the content-visible and collaborator-update builders the "id" is put into the caller's object earlier than in the code.
- Common.EqualsIgnoreCase folds only the ASCII letters A to Z. Java's `equalsIgnoreCase` also matches other characters, such as 'ſ' with 's' and the Kelvin sign with 'k'. So every comparison built on it can refuse a pair of strings that the code accepts. These are the owner checks of the authorizers, the anonymous-user checks, the class-sharing validator and the open-class test, the collection-format and membership-status tests, and the content-visibility type, entity and setting tests.
- Utils.ParsePgArray: the invite query's `?::varchar[]` cast is read by a simplified reader that splits at every comma. For an address that holds a comma or a double quote the model's lookup differs from Postgres, which keeps a quoted element whole and rejects a bare quote.
- AJEntityCollection.WithClass: class_visibility is modelled as a set of class ids, so appending a class that is already in the array leaves it unchanged, whereas Postgres appends a duplicate element. The `??` test ignores duplicates, so no query answer in the model differs.
- Store.JoinedClassIds: the query orders the class ids by the membership's `updated_at`, newest first. Membership rows carry no timestamps in the model, so the order of the list is not modelled, only its contents.
- `Json.Strings` drops non-string elements of an id array, whereas `getList` would hand them on. A collaborator column that holds a JSON value other than an array is read as an empty list.
- ActiveJDBC's own model validations are not modelled. When `save()` returns false and the model has no errors, the handlers go on to a success response, as the code does.
- UpdateCollaboratorForClassHandler.UpdateCollaboratorForClassHandler.ExecuteRequest: the contract says nothing about the result when the payload holds an "id" key, because the entity builder would then overwrite the id the update is keyed by.
- The delete handler's `checkSanity` answers "not found" for a missing class id, and the fetch-class handler checks only for an empty user id. The model does the same as the code.
- A "specific" content-visibility request is always refused by the payload check, because the selector does not allow its "scope" key. The model keeps this behaviour and states it in `ContentVisibilityHandler.SpecificAlwaysRefused`. This rests on the assumed value "scope" of `CV_SCOPE`.

## Findings

| source | as written | input that shows it | evidently intended | confidence | as-written member | corrected member |
|---|---|---|---|---|---|---|
| src/main/java/org/gooru/nucleus/handlers/classes/processors/repositories/activejdbc/validators/PayloadValidator.java:27 | the missing-field check runs only when the mandatory set is empty, so a missing mandatory field is never reported | an invitation payload `{"creator_system": "x"}` whose mandatory set is `{"invitees"}` passes validation | report "Missing field" for each mandatory key that is absent or null | high, not executed | PayloadValidator.MissingMandatoryCounterexample | PayloadValidator.IntendedReportsMissing |
| src/main/java/org/gooru/nucleus/handlers/classes/processors/repositories/activejdbc/dbhelpers/VisibleContentHelper.java:110-115 | the assessment and external-assessment counts of one lesson both go to the same map entry with `put`, so the last row read wins | rows (u, l, assessment, 2) and (u, l, assessment-external, 3) give 3 in one order and 2 in the other | add the counts, giving 5 whatever the row order | medium, not executed | VisibleContentHelper.LastCountWinsCounterexample | VisibleContentHelper.SummedCountsIgnoreOrder |
| src/main/java/org/gooru/nucleus/handlers/classes/processors/repositories/activejdbc/dbhandlers/JoinClassByStudentHandler.java:129-134 | accepting an invitation sets the status to joined but leaves the user id of the invite row empty | a student invited by e-mail joins; the row has status joined and no user id | also record the joining user's id on the row | medium, not executed | JoinClassByStudentHandler.PromotionAsWrittenLosesStudent | JoinClassByStudentHandler.PromotedStudentIsVisible |
