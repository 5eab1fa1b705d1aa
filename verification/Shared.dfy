/** What several parts of the program call by the same name. */
module Shared {

  type UserId = string
  type RaceId = string

  /** The states a race's row can be in. */
  datatype Status = Pending | Active | Finished | Cancelled
}
