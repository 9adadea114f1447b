/** Where an approved candidate goes: a draft pull request, or a file in the run's own directory. */
module Destinations {
  import opened Wrappers
  import opened RunTables
  import opened RunProtocol
  import GitHub = GitHubDestination
  import GitHubServer

  /** The candidate as the GitHub adapter sees it. */
  function BoundOf(b: Body): GitHub.Bound {
    GitHub.Bound(b.target.path, b.source, b.target.headBranch, b.target.baseBranch, b.target.baseCommit)
  }

  /** A GitHub target that names an exact destination. */
  predicate IsBound(t: Target) {
    t.repository != [] && t.baseBranch != [] && t.headBranch != []
  }

  /** What happens to a local write: its path leaves the directory, it raises, or these bytes are there to be read back. */
  datatype Disk = Escapes | Raises(left: Option<Bytes>) | Stores(bytes: Bytes)

  class DestinationCoordinator {
    const github: GitHub.GitHubDestinationAdapter
    var files: map<(string, string), Bytes>

    constructor (github: GitHub.GitHubDestinationAdapter)
      ensures this.github == github && files == map[]
    {
      this.github, files := github, map[];
    }

    /**
      One application of a candidate; None when it raises. The receipt is the truthful one for this
      candidate, and it lacks a commit exactly when the bytes were already where the branch stood.
    */
    method Apply(runId: string, c: Candidate, disk: Disk) returns (applied: Option<Receipt>)
      requires GitHubServer.Valid(github.server.repo)
      modifies this`files, github.server
      ensures GitHubServer.Valid(github.server.repo)
      ensures applied.Some? ==> applied.value == ReceiptFor(c, applied.value.commit)
      ensures c.body.target.kind.GitHubPullRequest? ==>
                && files == old(files) && GitHub.Safe(old(github.server.repo), github.server.repo, BoundOf(c.body))
                && (applied.Some? ==>
                      && GitHub.Converged(github.server.repo, BoundOf(c.body))
                      && (applied.value.commit.None? <==> GitHub.HadBytes(old(github.server.repo), BoundOf(c.body))))
                && (old(github.server.faults) == [] ==>
                      (applied.Some? <==>
                         IsBound(c.body.target) && GitHub.CanFinish(old(github.server.repo), BoundOf(c.body))))
      ensures c.body.target.kind.LocalArtifact? ==>
                && github.server.repo == old(github.server.repo)
                && (applied.Some? <==> disk == Stores(c.body.source))
                && (applied.Some? ==> files == old(files)[(runId, c.body.target.path) := c.body.source])
                && files - {(runId, c.body.target.path)} == old(files) - {(runId, c.body.target.path)}
    {
      if c.body.target.kind.GitHubPullRequest? {
        applied := ApplyToGitHub(c);
        return;
      }
      if disk.Escapes? {
        return None;
      }
      var place := (runId, c.body.target.path);
      if disk.Raises? {
        if disk.left.Some? {
          files := files[place := disk.left.value];
        }
        return None;
      }
      files := files[place := disk.bytes];
      var readBack := files[place];
      if readBack != c.body.source {
        return None;
      }
      applied := Some(Receipt(LocalArtifact, HashBytes(readBack), true, None, None, None, None, None, false));
    }

    method ApplyToGitHub(c: Candidate) returns (applied: Option<Receipt>)
      requires GitHubServer.Valid(github.server.repo) && c.body.target.kind.GitHubPullRequest?
      modifies github.server
      ensures GitHubServer.Valid(github.server.repo)
      ensures GitHub.Safe(old(github.server.repo), github.server.repo, BoundOf(c.body))
      ensures applied.Some? ==>
                && applied.value == ReceiptFor(c, applied.value.commit)
                && GitHub.Converged(github.server.repo, BoundOf(c.body))
                && (applied.value.commit.None? <==> GitHub.HadBytes(old(github.server.repo), BoundOf(c.body)))
      ensures old(github.server.faults) == [] ==>
                (applied.Some? <==> IsBound(c.body.target) && GitHub.CanFinish(old(github.server.repo), BoundOf(c.body)))
    {
      GitHub.SafeIsReflexive(github.server.repo, BoundOf(c.body));
      if !IsBound(c.body.target) {
        return None;
      }
      var r := github.Apply(BoundOf(c.body));
      if r.Failure? {
        return None;
      }
      applied := Some(Receipt(GitHubPullRequest, HashBytes(r.value.readBack), true, Some(c.body.target.repository),
                              r.value.commitSha, None, None, None, false));
    }
  }
}
