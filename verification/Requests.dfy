/** Whitelist requests and their lifecycle: types.go and the rules every other module shares. */
module Requests {

  datatype Option<+T> = None | Some(value: T)

  datatype Status = Pending | Approved | Denied | Banned | Deactivated

  /** An id is the row's position in the collection: rows are only ever appended. Times are minutes after
      Go's zero time, so NO_TIME is the zero value of an unset timestamp. */
  datatype Request = Request(
    id: nat, username: string, age: int, gender: string, status: Status,
    timestamp: real, processed: real, lastUpdated: real, admin: string, assignees: seq<string>)

  const NO_TIME := 0.0

  /** The statuses that block another application under the same username. */
  predicate Active(status: Status) {
    status in {Pending, Approved, Banned}
  }

  predicate Decision(status: Status) {
    status in {Approved, Denied}
  }

  /** The transitions the dashboard and the op's action page offer. The server itself checks only that an
      op's request is still pending. */
  predicate LegalTransition(from: Status, to: Status) {
    || (from == Pending && Decision(to))
    || (from == Approved && to in {Banned, Deactivated})
  }

  function ResponseTime(r: Request): real {
    r.processed - r.timestamp
  }
}
