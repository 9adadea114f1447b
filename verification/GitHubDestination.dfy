/**
  The GitHub destination adapter: it creates the head branch, writes the approved bytes, opens one
  pull request and reads the bytes back. Any request may fail or kill the client, and the whole
  procedure may then be started again.
*/
module GitHubDestination {
  import opened Domain
  import opened GitHubServer
  import opened Wrappers

  /** A candidate already bound to an exact destination. */
  datatype Bound = Bound(path: string, content: Bytes, head: string, base: string, baseCommit: nat)

  datatype Receipt = Receipt(pullNumber: nat, commitSha: Option<nat>, readBack: Bytes)

  datatype Published = Published(pullNumber: nat, commitSha: Option<nat>)

  datatype Problem = Rejected(status: nat) | NoPull | ReadBackDiffers | Died

  // ---------------------------------------------------------------- what may change

  /** The commit the head branch stands on, or would be created on. */
  function Origin(r: Repo, c: Bound): Option<nat> {
    if KnownBranch(r, c.head) then Some(r.branches[c.head])
    else if c.baseCommit < |r.commits| then Some(c.baseCommit)
    else None
  }

  predicate HasBytes(t: Tree, c: Bound) {
    c.path in t && t[c.path] == c.content
  }

  /** The approved bytes are where the head branch stands, or would be created. */
  predicate HadBytes(r: Repo, c: Bound) {
    Origin(r, c).Some? && Origin(r, c).value < |r.commits| && HasBytes(r.commits[Origin(r, c).value].tree, c)
  }

  /** The commits after the one write an approval allows. */
  function WithWrite(r: Repo, c: Bound): seq<Commit>
    requires Origin(r, c).Some? && Origin(r, c).value < |r.commits|
  {
    var parent := r.commits[Origin(r, c).value];
    r.commits + [Commit(parent.tree[c.path := c.content], parent.ancestors + {|r.commits|})]
  }

  predicate Unwritten(r: Repo, s: Repo, c: Bound) {
    && s.commits == r.commits
    && (c.head in r.branches ==> c.head in s.branches)
    && (c.head in s.branches ==> Origin(r, c) == Some(s.branches[c.head]))
  }

  predicate Written(r: Repo, s: Repo, c: Bound)
  {
    && Origin(r, c).Some? && Origin(r, c).value < |r.commits|
    && !HasBytes(r.commits[Origin(r, c).value].tree, c)
    && s.commits == WithWrite(r, c)
    && c.head in s.branches && s.branches[c.head] == |r.commits|
  }

  /**
    Everything any number of attempts may do to the repository: other branches stay where they are,
    old commits stay, at most one commit is added and only when the bytes differed, and at most one
    pull request is added and only when none was open.
  */
  ghost predicate Safe(r: Repo, s: Repo, c: Bound) {
    && (forall b | b != c.head :: b in s.branches <==> b in r.branches)
    && (forall b | b in r.branches && b != c.head && b in s.branches :: s.branches[b] == r.branches[b])
    && (Unwritten(r, s, c) || Written(r, s, c))
    && PullsSafe(r.pulls, s.pulls, c)
  }

  predicate PullsSafe(before: seq<Pull>, after: seq<Pull>, c: Bound) {
    || after == before
    || (OpenPulls(before, c.head, c.base) == [] && after == before + [Pull(c.head, c.base, true)])
  }

  /** The approved bytes are on the head branch and exactly one pull request is open for it. */
  predicate Converged(r: Repo, c: Bound) {
    && KnownBranch(r, c.head)
    && HasBytes(TreeOf(r, c.head), c)
    && |OpenPulls(r.pulls, c.head, c.base)| == 1
  }

  /** What the repository must offer for an undisturbed attempt to succeed. */
  predicate CanFinish(r: Repo, c: Bound) {
    && Origin(r, c).Some? && Origin(r, c).value < |r.commits|
    && (|| OpenPulls(r.pulls, c.head, c.base) != []
        || (&& KnownBranch(r, c.base) && c.head != c.base
            && (|| !HasBytes(r.commits[Origin(r, c).value].tree, c)
                || Origin(r, c).value !in r.commits[r.branches[c.base]].ancestors)))
  }

  lemma SafeIsReflexive(r: Repo, c: Bound)
    requires Valid(r)
    ensures Safe(r, r, c)
  {
  }

  lemma CommitsCompose(r: Repo, s: Repo, t: Repo, c: Bound)
    requires Valid(r) && Valid(s)
    requires Unwritten(r, s, c) || Written(r, s, c)
    requires Unwritten(s, t, c) || Written(s, t, c)
    ensures Unwritten(r, t, c) || Written(r, t, c)
  {
    if Unwritten(r, s, c) {
      assert Origin(s, c) == Origin(r, c);
    } else {
      assert Origin(s, c) == Some(|r.commits|);
      assert HasBytes(s.commits[|r.commits|].tree, c);
    }
  }

  lemma PullsCompose(before: seq<Pull>, middle: seq<Pull>, after: seq<Pull>, c: Bound)
    requires NoTwins(before)
    requires PullsSafe(before, middle, c) && PullsSafe(middle, after, c)
    ensures PullsSafe(before, after, c)
  {
    if OpenPulls(before, c.head, c.base) == [] {
      NewPullHasNoTwin(before, c.head, c.base);
    }
  }

  /** Two attempts in a row may do no more than one attempt. */
  lemma SafeComposes(r: Repo, s: Repo, t: Repo, c: Bound)
    requires Valid(r) && Valid(s)
    requires Safe(r, s, c) && Safe(s, t, c)
    ensures Safe(r, t, c)
  {
    CommitsCompose(r, s, t, c);
    PullsCompose(r.pulls, s.pulls, t.pulls, c);
  }

  /** Once converged, an attempt changes nothing at all. */
  lemma ConvergedIsFinal(r: Repo, s: Repo, c: Bound)
    requires Valid(r) && Converged(r, c) && Safe(r, s, c)
    ensures s == r
  {
    assert s.branches.Keys == r.branches.Keys;
    assert s.branches == r.branches;
  }

  /** A safe change that converged made its commit exactly when the bytes were not there before. */
  lemma WrittenIff(r: Repo, s: Repo, c: Bound)
    requires Valid(r) && Safe(r, s, c) && Converged(s, c)
    ensures Written(r, s, c) <==> !HadBytes(r, c)
  {
  }

  /** Every other path of the head branch keeps the content it had where the branch started. */
  lemma OtherPathsKept(r: Repo, s: Repo, c: Bound, path: string)
    requires Valid(r) && Safe(r, s, c) && KnownBranch(s, c.head) && path != c.path
    ensures Origin(r, c).Some? && Origin(r, c).value < |r.commits|
    ensures path in TreeOf(s, c.head) <==> path in r.commits[Origin(r, c).value].tree
    ensures path in TreeOf(s, c.head) ==> TreeOf(s, c.head)[path] == r.commits[Origin(r, c).value].tree[path]
  {
  }

  /** An unfinished attempt never makes a later one impossible. */
  lemma CanFinishSurvives(r: Repo, s: Repo, c: Bound)
    requires Valid(r) && Valid(s) && CanFinish(r, c) && Safe(r, s, c)
    ensures CanFinish(s, c)
  {
    if OpenPulls(r.pulls, c.head, c.base) == [] {
      NewPullHasNoTwin(r.pulls, c.head, c.base);
    }
    if Unwritten(r, s, c) {
      assert Origin(s, c) == Origin(r, c);
    } else {
      assert Origin(s, c) == Some(|r.commits|);
    }
  }

  // ---------------------------------------------------------------- the adapter

  /** The requests an attempt may send, in whatever order: a write replaces a blob that differs from its content. */
  predicate OfAttempt(c: Bound, q: Request) {
    match q
    case CreateRef(branch, sha) => branch == c.head && sha == c.baseCommit
    case PutContents(path, branch, content, blob) =>
      path == c.path && branch == c.head && content == c.content && blob != Some(c.content)
    case CreatePull(head, base) => head == c.head && base == c.base
    case GetRef(_) => true
    case GetContents(_, _) => true
    case ListPulls(_, _) => true
  }

  predicate AllowedOk(allowed: set<nat>) {
    forall status | status in allowed :: !Fails(status)
  }

  function AfterBranch(r: Repo, c: Bound): Repo {
    r.(branches := r.branches[c.head := c.baseCommit])
  }

  function AfterWrite(r: Repo, c: Bound): Repo
    requires KnownBranch(r, c.head)
  {
    r.(commits := WithWrite(r, c), branches := r.branches[c.head := |r.commits|])
  }

  function AfterPull(r: Repo, c: Bound): Repo {
    r.(pulls := r.pulls + [Pull(c.head, c.base, true)])
  }

  lemma SafeStart(r: Repo, s: Repo, c: Bound)
    requires Valid(r)
    requires s == r || (Origin(r, c).Some? && c.head !in r.branches && s == AfterBranch(r, c))
    ensures Valid(s) && Safe(r, s, c) && Origin(s, c) == Origin(r, c) && (CanFinish(s, c) ==> CanFinish(r, c))
  {
    if s != r {
      assert Unwritten(r, s, c);
      if CanFinish(s, c) && c.base == c.head {
        assert CanFinish(r, c);
      }
    }
  }

  lemma SafeWrite(r: Repo, s: Repo, c: Bound)
    requires Valid(r) && KnownBranch(r, c.head) && !HasBytes(TreeOf(r, c.head), c)
    requires s == AfterWrite(r, c)
    ensures Valid(s) && Safe(r, s, c) && HasBytes(TreeOf(s, c.head), c)
    ensures CanFinish(s, c) ==> CanFinish(r, c)
  {
    assert Written(r, s, c);
  }

  lemma SafePull(r: Repo, s: Repo, c: Bound)
    requires Valid(r) && CanOpenPull(r, c.head, c.base)
    requires s == AfterPull(r, c)
    ensures Valid(s) && Safe(r, s, c) && CanFinish(r, c)
  {
    NewPullHasNoTwin(r.pulls, c.head, c.base);
    assert Unwritten(r, s, c);
  }

  lemma PullAnswers(r: Repo, c: Bound)
    requires Valid(r)
    ensures var (s, answer) := Serve(r, CreatePull(c.head, c.base));
      && s == (if CanOpenPull(r, c.head, c.base) then AfterPull(r, c) else r)
      && (CanOpenPull(r, c.head, c.base) ==>
            && answer == Response(201, PullNumber(|r.pulls|))
            && OpenPulls(s.pulls, c.head, c.base) == [|r.pulls|])
      && (!CanOpenPull(r, c.head, c.base) ==> answer == Response(422, Nothing))
      && Serve(s, CreatePull(c.head, c.base)).1 == Response(422, Nothing)
      && Valid(s)
  {
    if CanOpenPull(r, c.head, c.base) {
      NewPullHasNoTwin(r.pulls, c.head, c.base);
    }
  }

  // ---------------------------------------------------------------- attempts that interleave

  /** The requests that took effect, whoever sent them, in the order in which the server saw them. */
  function ServeAll(r: Repo, requests: seq<Request>): Repo {
    if requests == [] then r else Serve(ServeAll(r, requests[..|requests| - 1]), requests[|requests| - 1]).0
  }

  /** One request of an attempt is within what an attempt may do, wherever the repository stands. */
  lemma RequestIsSafe(r: Repo, c: Bound, q: Request)
    requires Valid(r) && OfAttempt(c, q)
    ensures Valid(Serve(r, q).0) && Safe(r, Serve(r, q).0, c)
  {
    ServeKeepsValid(r, q);
    SafeIsReflexive(r, c);
    var s := Serve(r, q).0;
    if s != r {
      match q
      case CreateRef(_, _) => SafeStart(r, s, c);
      case PutContents(_, _, _, _) => SafeWrite(r, s, c);
      case CreatePull(_, _) => SafePull(r, s, c);
      case _ =>
    }
  }

  /**
    However the requests of any number of attempts for one candidate interleave, wherever each of them
    fails or dies: together they do no more than one attempt may, and open at most one pull request.
  */
  lemma {:induction false} InterleavedAttemptsAreSafe(r: Repo, c: Bound, requests: seq<Request>)
    requires Valid(r) && forall q | q in requests :: OfAttempt(c, q)
    ensures Valid(ServeAll(r, requests)) && Safe(r, ServeAll(r, requests), c)
    ensures |OpenPulls(ServeAll(r, requests).pulls, c.head, c.base)| <= 1
  {
    if requests == [] {
      SafeIsReflexive(r, c);
    } else {
      var n := |requests| - 1;
      assert requests[n] in requests;
      var middle := ServeAll(r, requests[..n]);
      InterleavedAttemptsAreSafe(r, c, requests[..n]);
      RequestIsSafe(middle, c, requests[n]);
      SafeComposes(r, middle, ServeAll(r, requests), c);
    }
    AtMostOneOpen(ServeAll(r, requests).pulls, c.head, c.base);
  }

  class GitHubDestinationAdapter {
    const server: Server

    constructor (server: Server)
      ensures this.server == server
    {
      this.server := server;
    }

    /**
      At most two attempts, the second only after a retryable status. Whatever the network does the
      request takes effect at most once, and an accepted answer is the server's own.
    */
    method Request(ghost c: Bound, q: Request, allowed: set<nat>) returns (r: Result<Response, Problem>)
      requires Valid(server.repo) && OfAttempt(c, q) && AllowedOk(allowed)
      modifies server
      ensures Valid(server.repo)
      ensures server.repo == old(server.repo) || server.repo == Serve(old(server.repo), q).0
      ensures r.Success? ==>
        && r.value.status in allowed
        && server.repo == Serve(old(server.repo), q).0
        && (r.value == Serve(old(server.repo), q).1 || r.value == Serve(server.repo, q).1)
      ensures old(server.faults) == [] ==>
        && server.faults == []
        && server.repo == Serve(old(server.repo), q).0
        && (Serve(old(server.repo), q).1.status in allowed ==> r == Success(Serve(old(server.repo), q).1))
      ensures |old(server.faults)| - 2 <= |server.faults| <= |old(server.faults)|
      ensures old(server.faults) != [] ==> |server.faults| < |old(server.faults)|
    {
      SecondSendHasNoEffect(server.repo, q);
      var attempt := 0;
      var lastStatus := 0;
      while attempt < 2
        invariant attempt <= 2 && Valid(server.repo)
        invariant server.repo == old(server.repo) || server.repo == Serve(old(server.repo), q).0
        invariant attempt == 0 ==> server.repo == old(server.repo) && server.faults == old(server.faults)
        invariant attempt > 0 && old(server.faults) == [] ==>
            && server.faults == [] && server.repo == Serve(old(server.repo), q).0
            && Serve(old(server.repo), q).1.status !in allowed
        invariant |old(server.faults)| - attempt <= |server.faults| <= |old(server.faults)|
        invariant attempt > 0 && old(server.faults) != [] ==> |server.faults| < |old(server.faults)|
      {
        var answer := server.Send(q);
        if answer.None? {
          return Failure(Died);
        }
        var response := answer.value;
        lastStatus := response.status;
        if response.status in allowed {
          return Success(response);
        }
        if !Retryable(response.status) || attempt == 1 {
          break;
        }
        attempt := attempt + 1;
      }
      r := Failure(Rejected(lastStatus));
    }

    /** Creates the head branch on the approved base commit unless it exists already. */
    method EnsureBranch(c: Bound) returns (r: Result<(), Problem>)
      requires Valid(server.repo)
      modifies server
      ensures server.repo == old(server.repo) ||
              (c.head !in old(server.repo).branches && c.baseCommit < |old(server.repo).commits|
               && server.repo == AfterBranch(old(server.repo), c))
      ensures r.Success? ==> KnownBranch(server.repo, c.head)
      ensures old(server.faults) == [] ==> server.faults == [] && (r.Success? <==> Origin(old(server.repo), c).Some?)
      ensures |server.faults| <= |old(server.faults)|
      ensures old(server.faults) != [] ==> |server.faults| < |old(server.faults)|
    {
      var response :- Request(c, CreateRef(c.head, c.baseCommit), {201, 422});
      if response.status == 422 {
        var _ :- Request(c, GetRef(c.head), {200});
      }
      r := Success(());
    }

    /** Writes the approved bytes unless they are there; reports a commit exactly when this call made one. */
    method WriteContent(c: Bound) returns (r: Result<Option<nat>, Problem>)
      requires Valid(server.repo) && KnownBranch(server.repo, c.head)
      modifies server
      ensures server.repo == old(server.repo) ||
              (!HasBytes(TreeOf(old(server.repo), c.head), c) && server.repo == AfterWrite(old(server.repo), c))
      ensures r.Success? ==>
        && KnownBranch(server.repo, c.head) && HasBytes(TreeOf(server.repo, c.head), c)
        && r.value == if server.repo == old(server.repo) then None else Some(|old(server.repo).commits|)
      ensures old(server.faults) == [] ==> server.faults == [] && r.Success?
      ensures |server.faults| <= |old(server.faults)|
    {
      var existing :- Request(c, GetContents(c.path, c.head), {200, 404});
      var blob := if existing.status == 200 then Some(existing.payload.bytes) else None;
      if blob == Some(c.content) {
        return Success(None);
      }
      var written :- Request(c, PutContents(c.path, c.head, c.content, blob), {200, 201});
      r := Success(Some(written.payload.sha));
    }

    /** Asks for a pull request; None when the repository rejects it. */
    method CreateDraft(c: Bound) returns (r: Result<Option<nat>, Problem>)
      requires Valid(server.repo)
      modifies server
      ensures Valid(server.repo)
      ensures server.repo == old(server.repo) ||
              (CanOpenPull(old(server.repo), c.head, c.base) && server.repo == AfterPull(old(server.repo), c))
      ensures r.Success? && r.value.Some? ==> r.value.value in OpenPulls(server.repo.pulls, c.head, c.base)
      ensures old(server.faults) == [] ==>
        && server.faults == []
        && r.Success? && (r.value.Some? <==> CanOpenPull(old(server.repo), c.head, c.base))
      ensures |server.faults| <= |old(server.faults)|
    {
      PullAnswers(server.repo, c);
      var pull :- Request(c, CreatePull(c.head, c.base), {201, 422});
      r := Success(if pull.status == 422 then None else Some(pull.payload.number));
    }

    /** Lists the open pull requests. */
    method FindOpen(c: Bound) returns (r: Result<seq<nat>, Problem>)
      requires Valid(server.repo)
      modifies server
      ensures server.repo == old(server.repo)
      ensures r.Success? ==> r.value == OpenPulls(server.repo.pulls, c.head, c.base)
      ensures old(server.faults) == [] ==> server.faults == [] && r.Success?
      ensures |server.faults| <= |old(server.faults)|
    {
      var listed :- Request(c, ListPulls(c.head, c.base), {200});
      r := Success(listed.payload.numbers);
    }

    /** Opens a pull request, or finds the one already open. */
    method OpenPull(c: Bound) returns (r: Result<nat, Problem>)
      requires Valid(server.repo)
      modifies server
      ensures server.repo == old(server.repo) ||
              (CanOpenPull(old(server.repo), c.head, c.base) && server.repo == AfterPull(old(server.repo), c))
      ensures r.Success? ==> r.value in OpenPulls(server.repo.pulls, c.head, c.base)
      ensures old(server.faults) == [] ==>
        && server.faults == []
        && (r.Success? <==> CanOpenPull(old(server.repo), c.head, c.base)
                            || OpenPulls(old(server.repo).pulls, c.head, c.base) != [])
      ensures |server.faults| <= |old(server.faults)|
    {
      var draft :- CreateDraft(c);
      if draft.Some? {
        return Success(draft.value);
      }
      var numbers :- FindOpen(c);
      if numbers == [] {
        return Failure(NoPull);
      }
      r := Success(numbers[0]);
    }

    /** The three writing steps, in order. */
    method Publish(c: Bound) returns (r: Result<Published, Problem>)
      requires Valid(server.repo)
      modifies server
      ensures Valid(server.repo) && Safe(old(server.repo), server.repo, c)
      ensures r.Success? ==>
        && KnownBranch(server.repo, c.head) && HasBytes(TreeOf(server.repo, c.head), c)
        && r.value.pullNumber in OpenPulls(server.repo.pulls, c.head, c.base)
        && (r.value.commitSha.Some? <==> Written(old(server.repo), server.repo, c))
        && (r.value.commitSha.Some? ==> r.value.commitSha.value == server.repo.branches[c.head])
        && CanFinish(old(server.repo), c)
      ensures old(server.faults) == [] && CanFinish(old(server.repo), c) ==> r.Success? && server.faults == []
      ensures |server.faults| <= |old(server.faults)|
      ensures old(server.faults) != [] ==> |server.faults| < |old(server.faults)|
    {
      ghost var before := server.repo;
      var branch := EnsureBranch(c);
      ghost var branched := server.repo;
      SafeStart(before, branched, c);
      if branch.Failure? {
        return Failure(branch.error);
      }

      var commit := WriteContent(c);
      ghost var written := server.repo;
      AfterWriting(before, branched, written, c);
      if commit.Failure? {
        return Failure(commit.error);
      }

      var pull := OpenPull(c);
      AfterOpening(before, written, server.repo, c);
      if pull.Failure? {
        return Failure(pull.error);
      }
      r := Success(Published(pull.value, commit.value));
    }

    /**
      One attempt to apply an approved candidate. However it ends, the repository changed only as
      `Safe` allows. Success means convergence and was possible from the start, and an undisturbed
      attempt succeeds whenever that is possible. The receipt names a commit exactly when this
      attempt wrote one.
    */
    method Apply(c: Bound) returns (r: Result<Receipt, Problem>)
      requires Valid(server.repo)
      modifies server
      ensures Valid(server.repo) && Safe(old(server.repo), server.repo, c)
      ensures r.Success? ==>
        && Converged(server.repo, c)
        && OpenPulls(server.repo.pulls, c.head, c.base) == [r.value.pullNumber]
        && r.value.readBack == c.content
        && (r.value.commitSha.None? <==> HadBytes(old(server.repo), c))
        && (r.value.commitSha.Some? <==> Written(old(server.repo), server.repo, c))
        && (r.value.commitSha.Some? ==> r.value.commitSha.value == server.repo.branches[c.head])
      ensures r.Success? ==> CanFinish(old(server.repo), c)
      ensures old(server.faults) == [] && CanFinish(old(server.repo), c) ==> r.Success?
      ensures |server.faults| <= |old(server.faults)|
      ensures old(server.faults) != [] ==> |server.faults| < |old(server.faults)|
    {
      var published :- Publish(c);
      AtMostOneOpen(server.repo.pulls, c.head, c.base);
      var content :- ReadContent(c);
      if content != c.content {
        return Failure(ReadBackDiffers);
      }
      WrittenIff(old(server.repo), server.repo, c);
      r := Success(Receipt(published.pullNumber, published.commitSha, content));
    }

    /** Reads the destination file back. */
    method ReadContent(c: Bound) returns (r: Result<Bytes, Problem>)
      requires Valid(server.repo) && KnownBranch(server.repo, c.head)
      modifies server
      ensures server.repo == old(server.repo)
      ensures r.Success? ==> c.path in TreeOf(server.repo, c.head) && r.value == TreeOf(server.repo, c.head)[c.path]
      ensures old(server.faults) == [] ==>
        && server.faults == [] && (c.path in TreeOf(server.repo, c.head) ==> r.Success?)
      ensures |server.faults| <= |old(server.faults)|
    {
      var content :- Request(c, GetContents(c.path, c.head), {200});
      r := Success(content.payload.bytes);
    }

    /**
      Recovery and the operator start the procedure again after a failure. Every failure uses up part
      of the disturbance, so the attempts end in success and together did no more than one attempt may.
    */
    method ApplyUntilDone(c: Bound) returns (receipt: Receipt)
      requires Valid(server.repo) && CanFinish(server.repo, c)
      modifies server
      ensures Valid(server.repo) && Safe(old(server.repo), server.repo, c) && Converged(server.repo, c)
      ensures receipt.readBack == c.content
      ensures OpenPulls(server.repo.pulls, c.head, c.base) == [receipt.pullNumber]
    {
      ghost var before := server.repo;
      SafeIsReflexive(before, c);
      while true
        invariant Valid(server.repo) && Safe(before, server.repo, c) && CanFinish(server.repo, c)
        decreases |server.faults|
      {
        ghost var now := server.repo;
        var r := Apply(c);
        SafeComposes(before, now, server.repo, c);
        CanFinishSurvives(now, server.repo, c);
        if r.Success? {
          return r.value;
        }
      }
    }
  }

  // ---------------------------------------------------------------- target CI

  /** One check run; the conclusion means something only once it is completed. */
  datatype CheckRun = CheckRun(completed: bool, conclusion: string)

  predicate Passing(conclusion: string) {
    conclusion in {"success", "neutral", "skipped"}
  }

  function FirstFailing(runs: seq<CheckRun>): string
    requires exists k :: 0 <= k < |runs| && !Passing(runs[k].conclusion)
  {
    if !Passing(runs[0].conclusion) then runs[0].conclusion else FirstFailing(runs[1..])
  }

  function CheckRuns(runs: seq<CheckRun>): CiStatus {
    if runs == [] || exists k :: 0 <= k < |runs| && !runs[k].completed then CiPending
    else if forall k :: 0 <= k < |runs| ==> Passing(runs[k].conclusion) then CiSuccess
    else CiFailure(FirstFailing(runs))
  }

  /** A listing of one check run, by its conclusion; an empty listing is pending. */
  lemma CheckRunsOfOne(run: CheckRun)
    ensures CheckRuns([]) == CiPending
    ensures !run.completed ==> CheckRuns([run]) == CiPending
    ensures run.completed && (run.conclusion == "success" || run.conclusion == "neutral" || run.conclusion == "skipped") ==>
              CheckRuns([run]) == CiSuccess
    ensures run.completed && run.conclusion != "success" && run.conclusion != "neutral" && run.conclusion != "skipped" ==>
              CheckRuns([run]) == CiFailure(run.conclusion)
  {
    assert [run][0] == run;
  }

  /**
    Splitting the listing in two nonempty parts: it succeeds exactly when both parts do, is pending
    when either part is, and otherwise fails with the first part's conclusion if that failed.
  */
  lemma {:induction false} CheckRunsOfTwoParts(a: seq<CheckRun>, b: seq<CheckRun>)
    requires a != [] && b != []
    ensures CheckRuns(a + b) == if CheckRuns(a).CiPending? || CheckRuns(b).CiPending? then CiPending
                                else if CheckRuns(a).CiFailure? then CheckRuns(a)
                                else CheckRuns(b)
  {
    var all := a + b;
    assert forall k | 0 <= k < |a| :: all[k] == a[k];
    assert forall k | 0 <= k < |b| :: all[|a| + k] == b[k];
    if !CheckRuns(a).CiPending? && !CheckRuns(b).CiPending? {
      if CheckRuns(a).CiFailure? {
        FirstFailingIsInFront(a, b);
      } else if CheckRuns(b).CiFailure? {
        FirstFailingIsBehind(a, b);
      }
    }
  }

  lemma {:induction false} FirstFailingIsInFront(a: seq<CheckRun>, b: seq<CheckRun>)
    requires exists k :: 0 <= k < |a| && !Passing(a[k].conclusion)
    ensures exists k :: 0 <= k < |a + b| && !Passing((a + b)[k].conclusion)
    ensures FirstFailing(a + b) == FirstFailing(a)
  {
    var k :| 0 <= k < |a| && !Passing(a[k].conclusion);
    assert (a + b)[k] == a[k];
    if Passing(a[0].conclusion) {
      assert a[1..][k - 1] == a[k];
      assert (a + b)[1..] == a[1..] + b;
      FirstFailingIsInFront(a[1..], b);
    }
  }

  lemma {:induction false} FirstFailingIsBehind(a: seq<CheckRun>, b: seq<CheckRun>)
    requires forall k :: 0 <= k < |a| ==> Passing(a[k].conclusion)
    requires exists k :: 0 <= k < |b| && !Passing(b[k].conclusion)
    ensures exists k :: 0 <= k < |a + b| && !Passing((a + b)[k].conclusion)
    ensures FirstFailing(a + b) == FirstFailing(b)
  {
    var k :| 0 <= k < |b| && !Passing(b[k].conclusion);
    assert (a + b)[|a| + k] == b[k];
    if a == [] {
      assert a + b == b;
    } else {
      assert (a + b)[1..] == a[1..] + b;
      FirstFailingIsBehind(a[1..], b);
    }
  }

  lemma AfterWriting(before: Repo, r: Repo, s: Repo, c: Bound)
    requires Valid(before) && Valid(r) && Safe(before, r, c) && KnownBranch(r, c.head)
    requires CanFinish(r, c) ==> CanFinish(before, c)
    requires s == r || (!HasBytes(TreeOf(r, c.head), c) && s == AfterWrite(r, c))
    ensures Valid(s) && Safe(before, s, c)
    ensures CanFinish(s, c) ==> CanFinish(before, c)
  {
    if s != r {
      SafeWrite(r, s, c);
      SafeComposes(before, r, s, c);
    }
  }

  lemma AfterOpening(before: Repo, r: Repo, s: Repo, c: Bound)
    requires Valid(before) && Valid(r) && Safe(before, r, c) && KnownBranch(r, c.head)
    requires CanFinish(r, c) ==> CanFinish(before, c)
    requires s == r || (CanOpenPull(r, c.head, c.base) && s == AfterPull(r, c))
    ensures Valid(s) && Safe(before, s, c)
    ensures OpenPulls(s.pulls, c.head, c.base) != [] ==> CanFinish(before, c)
  {
    if s != r {
      SafePull(r, s, c);
      SafeComposes(before, r, s, c);
    }
  }
}
