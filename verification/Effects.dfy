/** What an action can change in the world. */
module Effects {

  datatype SideEffect =
    | Pure
    | ReadOnly
    | NetworkRead
    | WorkspaceWrite
    | RepositoryWrite
    | ExternalWrite
    | HostMutation
    | Destructive
    | Unknown

  /** The effects an action may only have behind a human approval (`REQUIRES_APPROVAL_EFFECTS`). */
  const REQUIRES_APPROVAL: set<SideEffect> := {ExternalWrite, Destructive, HostMutation, RepositoryWrite, Unknown}

  /** The effects a connector may perform without a grant and without looking for an earlier attempt. */
  const SAFE: set<SideEffect> := {Pure, ReadOnly, NetworkRead}
}
