/** The rows both follow components work on. */
module FollowTables {
  import opened Wrappers

  datatype Status = Pending | Accepted | Rejected

  /** The physical key of a follow. */
  datatype Pair = Pair(follower: Id, following: Id)

  /** A local actor's denormalized counters. */
  datatype Counters = Counters(followers: int, following: int)
}
