/**
  A GitHub repository as the destination adapter uses it: branches, contents, pull requests, and a
  network that may refuse a request, lose its answer, or outlive the client.
*/
module GitHubServer {
  import opened Wrappers

  type Bytes = seq<bv8>
  type Tree = map<string, Bytes>

  /** A commit knows its tree and its ancestors (itself included) by index. */
  datatype Commit = Commit(tree: Tree, ancestors: set<nat>)
  datatype Pull = Pull(head: string, base: string, isOpen: bool)
  datatype Repo = Repo(commits: seq<Commit>, branches: map<string, nat>, pulls: seq<Pull>)

  predicate IsOpenPull(p: Pull, head: string, base: string) {
    p == Pull(head, base, true)
  }

  /** Two open pull requests with one head and base. */
  predicate Twins(pulls: seq<Pull>, i: nat, j: nat)
    requires i < j < |pulls|
  {
    pulls[i].isOpen && pulls[i] == pulls[j]
  }

  ghost predicate Valid(r: Repo) {
    && (forall b | b in r.branches :: r.branches[b] < |r.commits|)
    && (forall i | 0 <= i < |r.commits| :: i in r.commits[i].ancestors)
    && (forall i, a | 0 <= i < |r.commits| && a in r.commits[i].ancestors :: a <= i)
    && NoTwins(r.pulls)
  }

  ghost predicate NoTwins(pulls: seq<Pull>) {
    forall i, j | 0 <= i < j < |pulls| :: !Twins(pulls, i, j)
  }

  // ---------------------------------------------------------------- requests

  datatype Request =
    | CreateRef(branch: string, sha: nat)
    | GetRef(branch: string)
    | GetContents(path: string, branch: string)
    | PutContents(path: string, branch: string, content: Bytes, blob: Option<Bytes>)
    | CreatePull(head: string, base: string)
    | ListPulls(head: string, base: string)

  datatype Payload = Nothing | Content(bytes: Bytes) | NewCommit(sha: nat) | PullNumber(number: nat) | PullNumbers(numbers: seq<nat>)
  datatype Response = Response(status: nat, payload: Payload)

  function TreeOf(r: Repo, branch: string): Tree
    requires branch in r.branches && r.branches[branch] < |r.commits|
  {
    r.commits[r.branches[branch]].tree
  }

  predicate KnownBranch(r: Repo, branch: string) {
    branch in r.branches && r.branches[branch] < |r.commits|
  }

  function OpenPulls(pulls: seq<Pull>, head: string, base: string): (found: seq<nat>)
    ensures forall i: nat :: i in found <==> i < |pulls| && IsOpenPull(pulls[i], head, base)
    ensures forall i, j | 0 <= i < j < |found| :: found[i] < found[j]
  {
    if pulls == [] then []
    else
      var n := |pulls| - 1;
      var earlier := OpenPulls(pulls[..n], head, base);
      assert forall k | 0 <= k < |earlier| :: earlier[k] in earlier;
      earlier + if IsOpenPull(pulls[n], head, base) then [n] else []
  }

  /** A pull request needs both branches, no open twin, and a head that is ahead of its base. */
  predicate CanOpenPull(r: Repo, head: string, base: string) {
    && KnownBranch(r, head) && KnownBranch(r, base)
    && OpenPulls(r.pulls, head, base) == []
    && r.branches[head] !in r.commits[r.branches[base]].ancestors
  }

  /** The write is accepted on an existing branch when the caller names the blob it replaces, if any. */
  predicate CanPut(r: Repo, path: string, branch: string, blob: Option<Bytes>) {
    && KnownBranch(r, branch)
    && blob == (if path in TreeOf(r, branch) then Some(TreeOf(r, branch)[path]) else None)
  }

  function Serve(r: Repo, q: Request): (Repo, Response) {
    match q
    case CreateRef(branch, sha) =>
      if branch in r.branches || sha >= |r.commits| then (r, Response(422, Nothing))
      else (r.(branches := r.branches[branch := sha]), Response(201, Nothing))
    case GetRef(branch) => (r, if branch in r.branches then Response(200, Nothing) else Response(404, Nothing))
    case GetContents(path, branch) =>
      (r, if KnownBranch(r, branch) && path in TreeOf(r, branch) then Response(200, Content(TreeOf(r, branch)[path]))
          else Response(404, Nothing))
    case PutContents(path, branch, content, blob) =>
      if !CanPut(r, path, branch, blob) then (r, Response(if KnownBranch(r, branch) then 409 else 404, Nothing))
      else
        var sha := |r.commits|;
        var parent := r.commits[r.branches[branch]];
        (r.(commits := r.commits + [Commit(parent.tree[path := content], parent.ancestors + {sha})],
            branches := r.branches[branch := sha]),
         Response(if blob.Some? then 200 else 201, NewCommit(sha)))
    case CreatePull(head, base) =>
      if CanOpenPull(r, head, base) then
        (r.(pulls := r.pulls + [Pull(head, base, true)]), Response(201, PullNumber(|r.pulls|)))
      else (r, Response(422, Nothing))
    case ListPulls(head, base) => (r, Response(200, PullNumbers(OpenPulls(r.pulls, head, base))))
  }

  /** The server never holds two open pull requests for one head and base. */
  lemma AtMostOneOpen(pulls: seq<Pull>, head: string, base: string)
    requires NoTwins(pulls)
    ensures |OpenPulls(pulls, head, base)| <= 1
  {
    var found := OpenPulls(pulls, head, base);
    assert forall k | 0 <= k < |found| :: found[k] in found;
    assert |found| > 1 ==> !Twins(pulls, found[0], found[1]);
  }

  lemma NewPullHasNoTwin(pulls: seq<Pull>, head: string, base: string)
    requires NoTwins(pulls) && OpenPulls(pulls, head, base) == []
    ensures NoTwins(pulls + [Pull(head, base, true)])
    ensures OpenPulls(pulls + [Pull(head, base, true)], head, base) == [|pulls|]
  {
    var more := pulls + [Pull(head, base, true)];
    assert more[..|pulls|] == pulls;
    forall i, j | 0 <= i < j < |more|
      ensures !Twins(more, i, j)
    {
      if j < |pulls| {
        assert !Twins(pulls, i, j);
      } else {
        assert i !in OpenPulls(pulls, head, base);
      }
    }
  }

  lemma ServeKeepsValid(r: Repo, q: Request)
    requires Valid(r)
    ensures Valid(Serve(r, q).0)
  {
    if q.CreatePull? && CanOpenPull(r, q.head, q.base) {
      NewPullHasNoTwin(r.pulls, q.head, q.base);
    }
  }

  /** Sending a request again changes nothing more, provided a write names a blob it really replaces. */
  lemma SecondSendHasNoEffect(r: Repo, q: Request)
    requires Valid(r)
    requires q.PutContents? ==> q.blob != Some(q.content)
    ensures Serve(Serve(r, q).0, q).0 == Serve(r, q).0
  {
    if q.CreatePull? && CanOpenPull(r, q.head, q.base) {
      NewPullHasNoTwin(r.pulls, q.head, q.base);
    }
  }

  // ---------------------------------------------------------------- the network

  predicate Retryable(status: nat) {
    status in {429, 502, 503, 504}
  }

  /** Failing statuses of the network and of authentication; the repository itself answers none of them. */
  predicate Fails(status: nat) {
    Retryable(status) || status in {401, 403, 500}
  }

  type FailingStatus = status: nat | Fails(status) witness 500

  datatype Fault =
    | Deliver                         // no fault
    | Refuse(status: FailingStatus)   // no effect, failing answer
    | Lose(status: FailingStatus)     // effect, but a failing answer
    | Die(after: bool)                // the client process ends before or after the effect

  /** Every request is served in one step; `faults` says what the network does to the next ones. */
  class Server {
    var repo: Repo
    var faults: seq<Fault>

    constructor (repo: Repo, faults: seq<Fault>)
      ensures this.repo == repo && this.faults == faults
    {
      this.repo, this.faults := repo, faults;
    }

    /** One attempt; None means there is no client left to read an answer. */
    method Send(q: Request) returns (answer: Option<Response>)
      modifies this
      ensures faults == if old(faults) == [] then [] else old(faults)[1..]
      ensures old(faults) == [] ==> answer == Some(Serve(old(repo), q).1)
      ensures repo == old(repo) || repo == Serve(old(repo), q).0
      ensures old(faults) == [] ==> repo == Serve(old(repo), q).0
      ensures answer.None? || Fails(answer.value.status) || answer == Some(Serve(old(repo), q).1)
      ensures answer.Some? && !Fails(answer.value.status) ==> repo == Serve(old(repo), q).0
      ensures old(Valid(repo)) ==> Valid(repo)
    {
      if Valid(repo) {
        ServeKeepsValid(repo, q);
      }
      var fault := if faults == [] then Deliver else faults[0];
      faults := if faults == [] then [] else faults[1..];
      var (next, reply) := Serve(repo, q);
      match fault
      case Deliver =>
        repo := next;
        answer := Some(reply);
      case Refuse(status) =>
        answer := Some(Response(status, Nothing));
      case Lose(status) =>
        repo := next;
        answer := Some(Response(status, Nothing));
      case Die(after) =>
        repo := if after then next else repo;
        answer := None;
    }
  }
}
