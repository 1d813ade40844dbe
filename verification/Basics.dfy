/** What several components share: optional values, and process classes with their kinds. */
module Basics {

  datatype Option<+T> = None | Some(value: T)

  type GroupId = string
  type Class = string

  const TEST: Class := "test"
  const STORAGE: Class := "storage"
  const LOG: Class := "log"
  const TRANSACTION: Class := "transaction"
  const COORDINATOR: Class := "coordinator"
  const GENERAL: Class := "general"

  predicate IsLogProcess(kind: Class) {
    kind == LOG || kind == TRANSACTION
  }

  predicate IsStateful(kind: Class) {
    kind == STORAGE || IsLogProcess(kind) || kind == COORDINATOR
  }

  predicate IsTransaction(kind: Class) {
    kind != STORAGE && kind != GENERAL
  }
}
