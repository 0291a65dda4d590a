/**
 * Keys of the "messages" resource bundle that the handlers put into their
 * responses. The model carries a key in place of the text it looks up.
 */
module Messages {
  const NOT_ALLOWED: string := "not.allowed"
  const EMPTY_PAYLOAD: string := "empty.payload"
  const INVALID_PAYLOAD: string := "invalid.payload"
  const MISSING_CLASS_ID: string := "missing.class.id"
  const MISSING_COURSE: string := "missing.course"
  const MISSING_CLASS_CODE: string := "missing.class.code"
  const INVALID_CLASS_OR_COURSE: string := "invalid.class.or.course"
  const NOT_FOUND: string := "not.found"
  const CLASS_ID: string := "class.id"
  const ARCHIVED_OR_INCORRECT_VERSION: string := "class.archived.or.incorrect.version"
  const CLASS_ASSOCIATED_WITH_COURSE: string := "class.associated.with.course"
  const CLASS_WITHOUT_COURSE: string := "class.without.course"
  const CODE_GENERATION_FAILURE: string := "class.code.generation.failure"
  const MEMBERSHIP_DELETE_FAILURE: string := "membership.delete.failure"
  const ERROR_FROM_STORE: string := "error.from.store"
  const EMAIL_NOT_AVAILABLE: string := "email.not.available"
  const INVALID_TYPE: string := "invalid.type"
  const INVALID_VALUE: string := "invalid.value"
  const MISSING_FIELD: string := "missing.field"
  const DELETED: string := "deleted"
  const UPDATED: string := "updated"
  const INVITED: string := "invited"
  const JOINED: string := "joined"
  const STUDENT_REMOVED: string := "student.removed"
}
