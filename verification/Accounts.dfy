// Registered users of a user server and the names they have elsewhere
// (crates/userserver/src/state.rs).

module Accounts {
  type UserId = string

  /** `state.full_id`: the name of a local user on other servers. */
  function FullId(users: map<UserId, string>, u: UserId, domain: string): string
    requires u in users
  {
    users[u] + "@" + domain
  }

  /** Usernames are unique. */
  predicate UsernamesUnique(users: map<UserId, string>) {
    forall u, v :: u in users && v in users && users[u] == users[v] ==> u == v
  }
}
