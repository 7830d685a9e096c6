/** Optional values, used for the persisted leaderboard blob and for lookups that can miss. */
module Wrappers {
  datatype Option<+T> = None | Some(value: T)
}
