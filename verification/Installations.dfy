/**
  What the service knows about GitHub App installations: which exist and are active, which
  repositories each covers, and which tenant has claimed which. Each store call is one transaction.
*/
module Installations {
  import opened Wrappers

  datatype Installation = Installation(account: Option<string>, suspended: bool)

  /** The three tables. */
  datatype Store = Store(
    installations: map<int, Installation>,
    repositories: set<(int, string)>,
    workspaces: map<string, int>)

  const EMPTY := Store(map[], {}, map[])

  datatype Op =
    | Upsert(id: int, account: Option<string>, suspended: Option<bool>)
    | SetRepositories(id: int, names: set<string>)
    | AddRepositories(id: int, names: set<string>)
    | RemoveRepositories(id: int, names: set<string>)
    | Delete(id: int)
    | Claim(tenant: string, id: int)
    | Bind(tenant: string, id: int)

  predicate Active(s: Store, id: int) {
    id in s.installations && !s.installations[id].suspended
  }

  function Rows(id: int, names: set<string>): set<(int, string)> {
    set n | n in names :: (id, n)
  }

  function WithoutId(repositories: set<(int, string)>, id: int): set<(int, string)> {
    set r | r in repositories && r.0 != id
  }

  function Unbound(workspaces: map<string, int>, id: int): map<string, int> {
    map t | t in workspaces && workspaces[t] != id :: workspaces[t]
  }

  predicate CanClaim(s: Store, tenant: string, id: int) {
    Active(s, id) && forall t | t in s.workspaces :: s.workspaces[t] == id ==> t == tenant
  }

  /** `INSERT ... ON CONFLICT DO UPDATE`: a new row is active, a known login is not forgotten. */
  function Upserted(s: Store, id: int, account: Option<string>, suspended: Option<bool>): Installation {
    var row := if id in s.installations then s.installations[id] else Installation(None, false);
    Installation(if account.Some? then account else row.account,
                 if suspended.Some? then suspended.value else row.suspended)
  }

  /** The store after one call and whether it committed; a foreign-key violation rolls back. */
  function Do(s: Store, op: Op): (Store, bool) {
    match op
    case Upsert(id, account, suspended) =>
      (s.(installations := s.installations[id := Upserted(s, id, account, suspended)]), true)
    case SetRepositories(id, names) =>
      if names != {} && id !in s.installations then (s, false)
      else (s.(repositories := WithoutId(s.repositories, id) + Rows(id, names)), true)
    case AddRepositories(id, names) =>
      if names != {} && id !in s.installations then (s, false)
      else (s.(repositories := s.repositories + Rows(id, names)), true)
    case RemoveRepositories(id, names) =>
      (s.(repositories := s.repositories - Rows(id, names)), true)
    case Delete(id) =>
      (Store(s.installations - {id}, WithoutId(s.repositories, id), Unbound(s.workspaces, id)), true)
    case Claim(tenant, id) =>
      if CanClaim(s, tenant, id) then (s.(workspaces := s.workspaces[tenant := id]), true) else (s, false)
    case Bind(tenant, id) =>
      (s.(workspaces := s.workspaces[tenant := id]), true)
  }

  function Covered(s: Store, id: int): set<string> {
    if Active(s, id) then set r | r in s.repositories && r.0 == id :: r.1 else {}
  }

  /** The repositories a tenant may write to. */
  function Exposed(s: Store, tenant: string): set<string> {
    if tenant in s.workspaces then Covered(s, s.workspaces[tenant]) else {}
  }

  // ---------------------------------------------------------------- the store

  class InstallationStore {
    var installations: map<int, Installation>
    var repositories: set<(int, string)>
    var workspaces: map<string, int>

    constructor ()
      ensures View() == EMPTY
    {
      installations, repositories, workspaces := map[], {}, map[];
    }

    function View(): Store
      reads this
    {
      Store(installations, repositories, workspaces)
    }

    method UpsertInstallation(id: int, account: Option<string>, suspended: Option<bool>)
      modifies this
      ensures installations.Keys == old(installations).Keys + {id}
      ensures installations[id].account ==
                if account.Some? || id !in old(installations) then account else old(installations)[id].account
      ensures installations[id].suspended ==
                if suspended.Some? then suspended.value else id in old(installations) && old(installations)[id].suspended
      ensures forall other | other in old(installations) && other != id :: installations[other] == old(installations)[other]
      ensures View() == Do(old(View()), Upsert(id, account, suspended)).0
    {
      if id !in installations {
        installations := installations[id := Installation(account, suspended == Some(true))];
      } else {
        var row := installations[id];
        if account.Some? {
          row := row.(account := account);
        }
        if suspended.Some? {
          row := row.(suspended := suspended.value);
        }
        installations := installations[id := row];
      }
    }

    method SetRepositoriesOf(id: int, names: set<string>) returns (ok: bool)
      modifies this
      ensures ok <==> names == {} || id in installations
      ensures forall r :: r in repositories <==> if ok && r.0 == id then r.1 in names else r in old(repositories)
      ensures (View(), ok) == Do(old(View()), SetRepositories(id, names))
    {
      var before := repositories;
      repositories := WithoutId(repositories, id);
      if names != {} && id !in installations {
        repositories := before;
        return false;
      }
      repositories := repositories + Rows(id, names);
      ok := true;
    }

    method AddRepositoriesTo(id: int, names: set<string>) returns (ok: bool)
      modifies this
      ensures ok <==> names == {} || id in installations
      ensures forall r :: r in repositories <==> r in old(repositories) || (ok && r.0 == id && r.1 in names)
      ensures (View(), ok) == Do(old(View()), AddRepositories(id, names))
    {
      if names != {} && id !in installations {
        return false;
      }
      repositories := repositories + Rows(id, names);
      ok := true;
    }

    method RemoveRepositoriesFrom(id: int, names: set<string>)
      modifies this
      ensures forall r :: r in repositories <==> r in old(repositories) && !(r.0 == id && r.1 in names)
      ensures View() == Do(old(View()), RemoveRepositories(id, names)).0
    {
      repositories := repositories - Rows(id, names);
    }

    method DeleteInstallation(id: int)
      modifies this
      ensures id !in installations
      ensures forall r :: r in repositories <==> r in old(repositories) && r.0 != id
      ensures forall t :: t in workspaces <==> t in old(workspaces) && old(workspaces)[t] != id
      ensures View() == Do(old(View()), Delete(id)).0
    {
      repositories := WithoutId(repositories, id);
      workspaces := Unbound(workspaces, id);
      installations := installations - {id};
    }

    method ClaimInstallation(tenant: string, id: int) returns (ok: bool)
      modifies this
      ensures ok <==>
                && id in installations && !installations[id].suspended
                && forall t | t in old(workspaces) && old(workspaces)[t] == id :: t == tenant
      ensures workspaces == if ok then old(workspaces)[tenant := id] else old(workspaces)
      ensures (View(), ok) == Do(old(View()), Claim(tenant, id))
    {
      if id !in installations || installations[id].suspended {
        return false;
      }
      if exists t :: t in workspaces && workspaces[t] == id && t != tenant {
        return false;
      }
      workspaces := workspaces[tenant := id];
      ok := true;
    }

    method RepositoriesForWorkspace(tenant: string) returns (names: set<string>)
      ensures forall name :: name in names <==>
                && tenant in workspaces && workspaces[tenant] in installations
                && !installations[workspaces[tenant]].suspended && (workspaces[tenant], name) in repositories
      ensures names == Exposed(View(), tenant)
    {
      if tenant !in workspaces {
        return {};
      }
      var id := workspaces[tenant];
      names := if id in installations && !installations[id].suspended
               then set r | r in repositories && r.0 == id :: r.1 else {};
    }

    /** Applies one webhook event; undisturbed, no call inside it raises. */
    method ApplyInstallationEvent(e: Event) returns (ok: bool)
      modifies this
      ensures View() == Apply(old(View()), e)
      ensures ok
    {
      if e.action == Deleted {
        DeleteInstallation(e.id);
        return true;
      }
      if e.action == Suspend {
        UpsertInstallation(e.id, e.account, Some(true));
        return true;
      }
      UpsertInstallation(e.id, e.account, if FullSync(e) then Some(false) else None);
      ok := true;
      if FullSync(e) {
        ok := SetRepositoriesOf(e.id, e.names);
      } else if e.action == Added {
        ok := AddRepositoriesTo(e.id, e.names);
      } else if e.action == Removed {
        RemoveRepositoriesFrom(e.id, e.names);
      }
    }
  }

  // ---------------------------------------------------------------- events

  datatype Action = Created | Unsuspend | Added | Removed | Deleted | Suspend

  datatype Event = Event(id: int, account: Option<string>, action: Action, names: set<string>)

  predicate FullSync(e: Event) {
    e.action == Created || e.action == Unsuspend
  }

  /** The store calls of one event, in order. */
  function Calls(e: Event): seq<Op> {
    match e.action
    case Deleted => [Delete(e.id)]
    case Suspend => [Upsert(e.id, e.account, Some(true))]
    case Created => [Upsert(e.id, e.account, Some(false)), SetRepositories(e.id, e.names)]
    case Unsuspend => [Upsert(e.id, e.account, Some(false)), SetRepositories(e.id, e.names)]
    case Added => [Upsert(e.id, e.account, None), AddRepositories(e.id, e.names)]
    case Removed => [Upsert(e.id, e.account, None), RemoveRepositories(e.id, e.names)]
  }

  function Run(s: Store, ops: seq<Op>): Store
    decreases |ops|
  {
    if ops == [] then s else Run(Do(s, ops[0]).0, ops[1..])
  }

  function Apply(s: Store, e: Event): Store {
    var calls := Calls(e);
    var first := Do(s, calls[0]).0;
    if |calls| == 1 then first else Do(first, calls[1]).0
  }

  lemma ApplyRunsCalls(s: Store, e: Event)
    ensures Apply(s, e) == Run(s, Calls(e))
  {
    var calls := Calls(e);
    var first := Do(s, calls[0]).0;
    assert calls[1..] == if |calls| == 1 then [] else [calls[1]];
    if |calls| == 2 {
      assert Run(first, [calls[1]]) == Run(Do(first, calls[1]).0, [calls[1]][1..]);
      assert [calls[1]][1..] == [];
    }
  }

  // ---------------------------------------------------------------- invariants of every run

  /** Repositories and claims refer to existing installations, and no installation has two tenants. */
  ghost predicate Sound(s: Store) {
    && (forall r | r in s.repositories :: r.0 in s.installations)
    && (forall t | t in s.workspaces :: s.workspaces[t] in s.installations)
    && (forall t, u | t in s.workspaces && u in s.workspaces && s.workspaces[t] == s.workspaces[u] :: t == u)
  }

  lemma OpKeepsSound(s: Store, op: Op)
    requires Sound(s) && !op.Bind?
    ensures Sound(Do(s, op).0)
  {
  }

  /**
    After any interleaving of the store calls of any events with any claims, complete or cut short,
    tenant to installation is a partial injection into the existing installations.
  */
  lemma {:induction false} RunKeepsSound(s: Store, ops: seq<Op>)
    requires Sound(s) && forall op | op in ops :: !op.Bind?
    ensures Sound(Run(s, ops))
    decreases |ops|
  {
    if ops != [] {
      OpKeepsSound(s, ops[0]);
      RunKeepsSound(Do(s, ops[0]).0, ops[1..]);
    }
  }

  // ---------------------------------------------------------------- histories of events and claims

  /** What happens to the store from outside, one after the other. */
  datatype Happening = Delivered(event: Event) | Claimed(tenant: string, id: int)

  function After(s: Store, h: Happening): Store {
    match h
    case Delivered(e) => Apply(s, e)
    case Claimed(tenant, id) => Do(s, Claim(tenant, id)).0
  }

  function AfterAll(s: Store, history: seq<Happening>): Store
    decreases |history|
  {
    if history == [] then s else AfterAll(After(s, history[0]), history[1..])
  }

  function CallsOf(h: Happening): seq<Op> {
    match h
    case Delivered(e) => Calls(e)
    case Claimed(tenant, id) => [Claim(tenant, id)]
  }

  /** The store calls of a whole history, in order. */
  function AllCalls(history: seq<Happening>): seq<Op>
    decreases |history|
  {
    if history == [] then [] else CallsOf(history[0]) + AllCalls(history[1..])
  }

  lemma {:induction false} RunAppend(s: Store, first: seq<Op>, more: seq<Op>)
    ensures Run(s, first + more) == Run(Run(s, first), more)
    decreases |first|
  {
    if first == [] {
      assert first + more == more;
    } else {
      assert (first + more)[1..] == first[1..] + more;
      RunAppend(Do(s, first[0]).0, first[1..], more);
    }
  }

  lemma HappeningRunsCalls(s: Store, h: Happening)
    ensures After(s, h) == Run(s, CallsOf(h))
  {
    if h.Delivered? {
      ApplyRunsCalls(s, h.event);
    } else {
      var calls := CallsOf(h);
      assert calls[1..] == [];
      assert Run(Do(s, calls[0]).0, calls[1..]) == Do(s, calls[0]).0;
    }
  }

  /** A history does what its store calls do, so whatever holds of every run of calls holds of every history. */
  lemma {:induction false} HistoryRunsCalls(s: Store, history: seq<Happening>)
    ensures AfterAll(s, history) == Run(s, AllCalls(history))
    ensures forall op | op in AllCalls(history) :: !op.Bind?
    decreases |history|
  {
    if history != [] {
      HappeningRunsCalls(s, history[0]);
      HistoryRunsCalls(After(s, history[0]), history[1..]);
      RunAppend(s, CallsOf(history[0]), AllCalls(history[1..]));
    }
  }

  /** After any events and claims, tenant to installation is a partial injection into the existing installations. */
  lemma HistoryKeepsSound(s: Store, history: seq<Happening>)
    requires Sound(s)
    ensures Sound(AfterAll(s, history))
  {
    HistoryRunsCalls(s, history);
    RunKeepsSound(s, AllCalls(history));
  }

  /** From the empty store, no history lets two tenants see one installation. */
  lemma HistoryExposesApart(history: seq<Happening>, t: string, u: string)
    requires t != u && t in AfterAll(EMPTY, history).workspaces && u in AfterAll(EMPTY, history).workspaces
    ensures AfterAll(EMPTY, history).workspaces[t] != AfterAll(EMPTY, history).workspaces[u]
  {
    HistoryKeepsSound(EMPTY, history);
    ExposureIsExclusive(AfterAll(EMPTY, history), t, u);
  }

  // ---------------------------------------------------------------- single calls

  /** `bind_workspace` checks nothing: it keeps the invariant exactly when the claim would also be in order. */
  lemma BindKeepsSoundIff(s: Store, tenant: string, id: int)
    requires Sound(s)
    ensures Sound(Do(s, Bind(tenant, id)).0)
            <==> id in s.installations && forall t | t in s.workspaces :: s.workspaces[t] == id ==> t == tenant
  {
    var after := Do(s, Bind(tenant, id)).0;
    assert after.workspaces[tenant] == id;
    forall t | t in s.workspaces && t != tenant
      ensures t in after.workspaces && after.workspaces[t] == s.workspaces[t]
    {
    }
  }

  /** Two tenants never see the same installation. */
  lemma ExposureIsExclusive(s: Store, t: string, u: string)
    requires Sound(s) && t != u && t in s.workspaces && u in s.workspaces
    ensures s.workspaces[t] != s.workspaces[u]
    ensures Rows(s.workspaces[t], Exposed(s, t)) !! Rows(s.workspaces[u], Exposed(s, u))
  {
  }

  // ---------------------------------------------------------------- suspension and deletion

  /** The call may make the installation active again. */
  predicate Reactivates(op: Op, id: int) {
    op.Upsert? && op.id == id && op.suspended == Some(false)
  }

  predicate Suspended(s: Store, id: int) {
    id in s.installations && s.installations[id].suspended
  }

  /**
    After a suspension nothing is exposed to whoever holds the claim, however many events and claims
    follow, until a full synchronisation or a deletion of that installation.
  */
  lemma {:induction false} SuspendedStaysDark(s: Store, ops: seq<Op>, id: int, tenant: string)
    requires Suspended(s, id)
    requires forall op | op in ops :: !Reactivates(op, id) && op != Delete(id)
    ensures Suspended(Run(s, ops), id) && Covered(Run(s, ops), id) == {}
    ensures tenant in Run(s, ops).workspaces && Run(s, ops).workspaces[tenant] == id ==> Exposed(Run(s, ops), tenant) == {}
    decreases |ops|
  {
    if ops != [] {
      assert ops[0] in ops;
      SuspendedStaysDark(Do(s, ops[0]).0, ops[1..], id, tenant);
    }
  }

  /** A deleted installation loses its claim for good: without a new claim no tenant is bound to it again. */
  lemma {:induction false} DeletedMustBeReclaimed(s: Store, ops: seq<Op>, id: int, tenant: string)
    requires Sound(s) && (forall t | t in s.workspaces :: s.workspaces[t] != id)
    requires forall op | op in ops :: !op.Bind? && !(op.Claim? && op.id == id)
    ensures tenant in Run(s, ops).workspaces ==> Run(s, ops).workspaces[tenant] != id
    decreases |ops|
  {
    if ops != [] {
      assert ops[0] in ops;
      OpKeepsSound(s, ops[0]);
      DeletedMustBeReclaimed(Do(s, ops[0]).0, ops[1..], id, tenant);
    }
  }

  /** Suspending or deleting hides the installation from every tenant at once. */
  lemma HiddenAtOnce(s: Store, e: Event, tenant: string)
    requires Sound(s) && (e.action == Suspend || e.action == Deleted)
    ensures Covered(Apply(s, e), e.id) == {}
    ensures tenant in s.workspaces && s.workspaces[tenant] == e.id ==> Exposed(Apply(s, e), tenant) == {}
    ensures e.action == Deleted ==> forall t | t in Apply(s, e).workspaces :: Apply(s, e).workspaces[t] != e.id
  {
  }

  // ---------------------------------------------------------------- one event

  lemma RowsCover(repositories: set<(int, string)>, id: int, names: set<string>)
    ensures (set r | r in WithoutId(repositories, id) + Rows(id, names) && r.0 == id :: r.1) == names
  {
    forall n | n in names
      ensures n in (set r | r in WithoutId(repositories, id) + Rows(id, names) && r.0 == id :: r.1)
    {
      assert (id, n) in Rows(id, names);
    }
  }

  /** A full synchronisation activates the installation with exactly the repositories of the event. */
  lemma FullSyncIsExact(s: Store, e: Event)
    requires FullSync(e)
    ensures Active(Apply(s, e), e.id) && Covered(Apply(s, e), e.id) == e.names
  {
    RowsCover(s.repositories, e.id, e.names);
  }

  /** The installation is there and not suspended, or unknown so far: an event that names it makes it active. */
  predicate ActiveOrNew(s: Store, id: int) {
    id in s.installations ==> !s.installations[id].suspended
  }

  /**
    Which repositories the tenant of an installation sees after repositories were added or removed: what it had
    with the added ones, or without the removed ones; nothing while the installation is suspended.
  */
  lemma SeenAfterChange(s: Store, e: Event, tenant: string, name: string)
    requires tenant in s.workspaces && s.workspaces[tenant] == e.id && (e.action == Added || e.action == Removed)
    ensures name in Exposed(Apply(s, e), tenant) <==>
              && ActiveOrNew(s, e.id)
              && if e.action == Added then (e.id, name) in s.repositories || name in e.names
                 else (e.id, name) in s.repositories && name !in e.names
  {
    var after := Apply(s, e);
    assert name in Exposed(after, tenant) <==> Active(after, e.id) && (e.id, name) in after.repositories;
    assert (e.id, name) in Rows(e.id, e.names) <==> name in e.names;
  }

  /** Redelivering an event changes nothing. */
  lemma ApplyTwice(s: Store, e: Event)
    ensures Apply(Apply(s, e), e) == Apply(s, e)
  {
    var once := Apply(s, e);
    if e.action == Deleted {
      DeleteTwice(s, e.id);
    } else {
      assert Apply(once, e).installations == once.installations;
      assert Apply(once, e).repositories == once.repositories;
    }
  }

  lemma DeleteTwice(s: Store, id: int)
    ensures var once := Do(s, Delete(id)).0; Do(once, Delete(id)).0 == once
  {
    var once := Do(s, Delete(id)).0;
    assert once.installations - {id} == once.installations;
    assert WithoutId(once.repositories, id) == once.repositories;
    assert Unbound(once.workspaces, id) == once.workspaces;
  }

  /** An event touches only its own installation, and only a deletion touches claims. */
  lemma OthersUntouched(s: Store, e: Event, id: int)
    requires id != e.id
    ensures Covered(Apply(s, e), id) == Covered(s, id)
    ensures e.action != Deleted ==> Apply(s, e).workspaces == s.workspaces
    ensures forall t | t in s.workspaces && s.workspaces[t] != e.id ::
              t in Apply(s, e).workspaces && Apply(s, e).workspaces[t] == s.workspaces[t]
  {
    assert forall n :: (id, n) in Apply(s, e).repositories <==> (id, n) in s.repositories;
    var before := set r | r in s.repositories && r.0 == id :: r.1;
    var after := set r | r in Apply(s, e).repositories && r.0 == id :: r.1;
    forall n
      ensures n in before <==> n in after
    {
      assert n in before <==> (id, n) in s.repositories;
      assert n in after <==> (id, n) in Apply(s, e).repositories;
    }
    assert before == after;
  }
}
