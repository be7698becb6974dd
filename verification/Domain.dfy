/** What several parts of the service share. */
module Domain {

  type SessionId = nat

  /** An embedding. */
  type Vector = seq<real>
}
