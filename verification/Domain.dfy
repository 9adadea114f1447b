/** What several components of the service speak of. */
module Domain {
  /** How a suite does against the mutants and the accepted solutions, in counts. */
  datatype Metrics = Metrics(total: nat, killed: nat, surviving: nat, acceptedPassed: nat)

  /** What the check runs of a commit say. */
  datatype CiStatus = CiPending | CiSuccess | CiFailure(conclusion: string)
}
