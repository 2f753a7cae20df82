/** The coordinator's bounded decisions. */
module Decisions {
  datatype Decision = START | VALIDATE | CONTINUE | COMPLETE | RETRY_CLEAN | REPLACE | FAIL
}
