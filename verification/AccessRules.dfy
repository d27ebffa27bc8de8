/** Write authority, computed twice: on the hub as one query over the tables
    (internal/access/store.go), and in the CLI from a snapshot with maps and
    loops (cmd/aimem/access_view.go). */
module AccessRules {
  import opened Options

  type UserId = string
  type GroupId = string
  type TokenId = string
  type Project = string
  type Time = nat
  const SECOND: nat := 1_000_000_000
  const MAX_LIFE: nat := 366 * 24 * 3600 * SECOND

  datatype Scope = ScopeUser | ScopeProject | ScopeReadOnly
  datatype Kind = UserGrant | GroupGrant
  datatype Grant = Grant(project: Project, kind: Kind, subject: string)
  /** expires is in whole seconds. */
  datatype Token = Token(user: UserId, scope: Scope, project: Project, expires: nat, revoked: bool)

  /** users maps a user to whether it is disabled. */
  datatype Store = Store(
    users: map<UserId, bool>, groups: set<GroupId>, members: set<(GroupId, UserId)>,
    grants: set<Grant>, tokens: map<TokenId, Token>)

  // ---- the store's operations ----

  /** `ResolveScope`: an omitted scope is project-scoped with a project, else
      read-only. */
  function ResolveScope(scope: Option<Scope>, project: Project): Option<Scope> {
    var s := if scope.Some? then scope.value else if project != "" then ScopeProject else ScopeReadOnly;
    if (s == ScopeProject && project != "") || (s != ScopeProject && project == "") then Some(s) else None
  }

  ghost predicate Granted(s: Store, user: UserId, project: Project) {
    || Grant(project, UserGrant, user) in s.grants
    || exists g :: Grant(project, GroupGrant, g) in s.grants && (g, user) in s.members
  }

  ghost predicate CanWrite(s: Store, user: UserId, project: Project) {
    user in s.users && !s.users[user] && Granted(s, user, project)
  }

  /** `CanWriteToken`: expiry is compared with the clock in whole seconds. */
  ghost predicate CanWriteToken(s: Store, now: Time, user: UserId, t: TokenId, project: Project) {
    && project != "" && t in s.tokens
    && var k := s.tokens[t];
       && k.user == user && CanWrite(s, user, project)
       && !k.revoked && k.expires > now / SECOND
       && ((k.scope == ScopeUser && k.project == "") || (k.scope == ScopeProject && k.project == project))
  }

  datatype Op =
    | CreateUser(u: UserId)
    | SetUser(u: UserId, disabled: bool)
    | CreateGroup(g: GroupId)
    | SetMember(g: GroupId, u: UserId, present: bool)
    | SetGrant(grant: Grant, present: bool)
    | IssueScoped(now: Time, t: TokenId, u: UserId, scope: Option<Scope>, project: Project, expires: Time)
    | Revoke(t: TokenId)

  predicate Fresh(s: Store, op: Op) {
    (op.CreateUser? ==> op.u !in s.users) && (op.IssueScoped? ==> op.t !in s.tokens)
  }

  ghost function Step(s: Store, op: Op): Store {
    match op
    case CreateUser(u) => s.(users := s.users[u := false])
    case SetUser(u, d) => if u in s.users then s.(users := s.users[u := d]) else s
    case CreateGroup(g) => s.(groups := s.groups + {g})
    case SetMember(g, u, present) =>
      if g !in s.groups || u !in s.users then s
      else s.(members := if present then s.members + {(g, u)} else s.members - {(g, u)})
    case SetGrant(grant, present) =>
      if grant.project == "" || (if grant.kind == UserGrant then grant.subject !in s.users else grant.subject !in s.groups) then s
      else s.(grants := if present then s.grants + {grant} else s.grants - {grant})
    case IssueScoped(now, t, u, scope, project, expires) =>
      var r := ResolveScope(scope, project);
      if r.None? || !(now < expires <= now + MAX_LIFE) || u !in s.users || s.users[u] || (project != "" && !CanWrite(s, u, project))
      then s
      else s.(tokens := s.tokens[t := Token(u, r.value, project, expires / SECOND, false)])
    case Revoke(t) => if t in s.tokens then s.(tokens := s.tokens[t := s.tokens[t].(revoked := true)]) else s
  }

  ghost predicate Reaches(s: Store, ops: seq<Op>, s': Store)
    decreases |ops|
  {
    if ops == [] then s == s' else Fresh(s, ops[0]) && Reaches(Step(s, ops[0]), ops[1..], s')
  }

  const EMPTY := Store(map[], {}, {}, {}, map[])

  /** What the operations keep: no grant on the empty project, a token's scope
      matches its project, and rows name existing users. */
  ghost predicate Sound(s: Store) {
    && (forall g :: g in s.grants ==> g.project != "")
    && (forall g :: g in s.grants && g.kind == UserGrant ==> g.subject in s.users)
    && (forall m :: m in s.members ==> m.1 in s.users)
    && (forall t :: t in s.tokens ==> s.tokens[t].user in s.users)
    && (forall t :: t in s.tokens ==> (s.tokens[t].scope == ScopeProject <==> s.tokens[t].project != ""))
  }

  lemma {:induction false} RunIsSound(s: Store, ops: seq<Op>, s': Store)
    requires Sound(s) && Reaches(s, ops, s')
    ensures Sound(s')
    decreases |ops|
  {
    if ops != [] {
      RunIsSound(Step(s, ops[0]), ops[1..], s');
    }
  }

  // ---- what the operations decide ----

  /** Who may be issued what: an omitted scope means the project's when one is named
      and read-only otherwise, a project's scope needs a project, and the others
      none. */
  lemma IssueExactly(s: Store, now: Time, t: TokenId, u: UserId, scope: Option<Scope>, project: Project, expires: Time)
    requires t !in s.tokens
    ensures var s' := Step(s, IssueScoped(now, t, u, scope, project, expires));
            var given := match scope case None => true case Some(k) => (k == ScopeProject <==> project != "");
            var k := match scope case None => (if project == "" then ScopeReadOnly else ScopeProject) case Some(k) => k;
            && (t in s'.tokens <==>
                && given && now < expires <= now + 366 * 24 * 3600 * 1_000_000_000 && u in s.users && s.users[u] == false
                && (project == "" || Grant(project, UserGrant, u) in s.grants
                    || exists g :: Grant(project, GroupGrant, g) in s.grants && (g, u) in s.members))
            && s' == if t in s'.tokens then s.(tokens := s.tokens[t := Token(u, k, project, expires / 1_000_000_000, false)]) else s
  {
  }

  /** The last word about a user, a membership and a grant. */
  function LastDisabled(ops: seq<Op>, u: UserId, before: bool): bool
    decreases |ops|
  {
    if ops == [] then before
    else LastDisabled(ops[1..], u, match ops[0] case SetUser(v, d) => (if v == u then d else before) case _ => before)
  }

  function LastMember(ops: seq<Op>, g: GroupId, u: UserId, before: bool): bool
    decreases |ops|
  {
    if ops == [] then before
    else LastMember(ops[1..], g, u, match ops[0] case SetMember(h, v, p) => (if h == g && v == u then p else before) case _ => before)
  }

  function LastGrant(ops: seq<Op>, g: Grant, before: bool): bool
    decreases |ops|
  {
    if ops == [] then before
    else LastGrant(ops[1..], g, match ops[0] case SetGrant(h, p) => (if h == g then p else before) case _ => before)
  }

  predicate Exists(s: Store, g: Grant) { if g.kind == UserGrant then g.subject in s.users else g.subject in s.groups }

  /** Over every run, a user is disabled, a member belongs and a grant stands as the
      last operation on it said. */
  lemma {:induction false} LastWordHolds(s: Store, ops: seq<Op>, s': Store, u: UserId, g: GroupId, grant: Grant)
    requires Reaches(s, ops, s') && u in s.users && g in s.groups && grant.project != "" && Exists(s, grant)
    ensures u in s'.users && s'.users[u] == LastDisabled(ops, u, s.users[u])
    ensures (g, u) in s'.members <==> LastMember(ops, g, u, (g, u) in s.members)
    ensures grant in s'.grants <==> LastGrant(ops, grant, grant in s.grants)
    decreases |ops|
  {
    if ops != [] { LastWordHolds(Step(s, ops[0]), ops[1..], s', u, g, grant); }
  }

  /** And a token is what it was issued as, revoked exactly when it was or has been
      since. */
  lemma {:induction false} TokenKeepsItself(s: Store, ops: seq<Op>, s': Store, t: TokenId)
    requires Reaches(s, ops, s') && t in s.tokens
    ensures t in s'.tokens && s'.tokens[t] == s.tokens[t].(revoked := s.tokens[t].revoked || Revoke(t) in ops)
    decreases |ops|
  {
    if ops != [] {
      TokenKeepsItself(Step(s, ops[0]), ops[1..], s', t);
      assert ops == [ops[0]] + ops[1..];
    }
  }

  /** A revoked token never writes again, a read-only one never at all, and a
      project's writes nowhere else, whatever is granted. */
  lemma NeverWritesAgain(s: Store, ops: seq<Op>, s': Store, now: Time, u: UserId, t: TokenId, project: Project)
    requires Reaches(s, ops, s') && t in s.tokens
    requires || s.tokens[t].revoked || Revoke(t) in ops || s.tokens[t].scope == ScopeReadOnly
             || s.tokens[t].expires <= now / 1_000_000_000
             || (s.tokens[t].scope == ScopeProject && s.tokens[t].project != project)
    ensures !CanWriteToken(s', now, u, t, project)
  {
    TokenKeepsItself(s, ops, s', t);
  }

  /** What a new token may write, while nothing else changes: its project, or every
      project granted to its user, until it expires. */
  lemma NewTokenWritesExactly(s: Store, now: Time, t: TokenId, u: UserId, scope: Option<Scope>, project: Project, expires: Time,
                              later: Time, p: Project)
    requires t !in s.tokens && t in Step(s, IssueScoped(now, t, u, scope, project, expires)).tokens && Sound(s)
    ensures var s' := Step(s, IssueScoped(now, t, u, scope, project, expires));
            CanWriteToken(s', later, u, t, p) <==>
              && p != "" && (if project != "" then p == project else scope == Some(ScopeUser))
              && later / 1_000_000_000 < expires / 1_000_000_000
              && (Grant(p, UserGrant, u) in s.grants || exists g :: Grant(p, GroupGrant, g) in s.grants && (g, u) in s.members)
  {
    IssueExactly(s, now, t, u, scope, project, expires);
  }

  // ---- the snapshot and the CLI's view ----

  datatype SnapUser = SnapUser(id: UserId, disabled: bool)
  datatype SnapToken = SnapToken(id: TokenId, token: Token)

  /** `Snapshot`: every table as a list. */
  datatype Snap = Snap(
    users: seq<SnapUser>, members: seq<(GroupId, UserId)>, grants: seq<Grant>, tokens: seq<SnapToken>)

  /** The lists hold exactly the rows. */
  ghost predicate ShowsStore(n: Snap, s: Store) {
    && (forall u :: u in s.users <==> SnapUser(u, false) in n.users || SnapUser(u, true) in n.users)
    && (forall x :: x in n.users ==> x.id in s.users && s.users[x.id] == x.disabled)
    && (forall m :: m in n.members <==> m in s.members)
    && (forall g :: g in n.grants <==> g in s.grants)
    && (forall k :: k in n.tokens <==> k.id in s.tokens && s.tokens[k.id] == k.token)
  }

  /** The maps `newAccessView` builds. */
  class AccessView {
    const snap: Snap
    const now: Time
    var disabled: map<UserId, bool>
    var members: map<GroupId, seq<UserId>>

    /** The maps hold what the lists say. */
    ghost predicate Built()
      reads this
    {
      && (forall x :: x in snap.users ==> x.id in disabled)
      && (forall u :: u in disabled ==> SnapUser(u, disabled[u]) in snap.users)
      && (forall g, u :: (g in members && u in members[g]) <==> (g, u) in snap.members)
    }

    constructor (snap: Snap, now: Time)
      ensures Built() && this.snap == snap && this.now == now
    {
      this.snap, this.now := snap, now;
      disabled, members := map[], map[];
      new;
      for i := 0 to |snap.users|
        invariant forall j :: 0 <= j < i ==> snap.users[j].id in disabled
        invariant forall u :: u in disabled ==> SnapUser(u, disabled[u]) in snap.users
        invariant members == map[]
      {
        disabled := disabled[snap.users[i].id := snap.users[i].disabled];
        assert snap.users[i] in snap.users;
      }
      for i := 0 to |snap.members|
        invariant forall x :: x in snap.users ==> x.id in disabled
        invariant forall u :: u in disabled ==> SnapUser(u, disabled[u]) in snap.users
        invariant forall g, u :: (g in members && u in members[g]) <==> (g, u) in snap.members[..i]
      {
        var (g, u) := snap.members[i];
        members := members[g := (if g in members then members[g] else []) + [u]];
        assert snap.members[..i + 1] == snap.members[..i] + [snap.members[i]];
      }
    }

    predicate IsDisabled(u: UserId)
      reads this
    {
      u in disabled && disabled[u]
    }

    predicate LiveToken(i: nat)
      reads this
      requires i < |snap.tokens|
    {
      var t := snap.tokens[i].token;
      !t.revoked && t.expires * SECOND > now && !IsDisabled(t.user)
    }

    /** The users a grant reaches. */
    ghost predicate Reached(g: Grant, u: UserId)
      reads this
    {
      if g.kind == GroupGrant then g.subject in members && u in members[g.subject] else u == g.subject
    }

    /** `grantedUsers` without all. */
    method GrantedUsers(inst: Project) returns (out: set<UserId>)
      ensures forall u :: u in out <==> !IsDisabled(u) && exists g :: g in snap.grants && g.project == inst && Reached(g, u)
    {
      out := {};
      for i := 0 to |snap.grants|
        invariant forall u :: u in out <==>
                    !IsDisabled(u) && exists g :: g in snap.grants[..i] && g.project == inst && Reached(g, u)
      {
        var g := snap.grants[i];
        assert snap.grants[..i + 1] == snap.grants[..i] + [g];
        ghost var was := out;
        if g.project == inst {
          var users := [g.subject];
          if g.kind == GroupGrant {
            users := if g.subject in members then members[g.subject] else [];
          }
          for j := 0 to |users|
            invariant forall u :: u in out <==> u in was || (!IsDisabled(u) && u in users[..j])
          {
            assert users[..j + 1] == users[..j] + [users[j]];
            if !IsDisabled(users[j]) {
              out := out + {users[j]};
            }
          }
          assert users[..|users|] == users;
          assert forall u :: u in users <==> Reached(g, u);
        }
      }
      assert snap.grants[..|snap.grants|] == snap.grants;
    }

    /** A live token whose scope covers the project, of an enabled user whom a
        grant of the project reaches. */
    ghost predicate Writes(inst: Project, i: nat)
      reads this
      requires i < |snap.tokens|
    {
      var t := snap.tokens[i].token;
      && LiveToken(i) && ((t.scope == ScopeProject && t.project == inst) || t.scope == ScopeUser)
      && !IsDisabled(t.user) && exists g :: g in snap.grants && g.project == inst && Reached(g, t.user)
    }

    ghost predicate ListsWriters(inst: Project, out: seq<nat>)
      reads this
    {
      forall i: nat :: i in out <==> i < |snap.tokens| && Writes(inst, i)
    }

    /** `writeTokens` without all, before its sort by label. */
    method WriteTokens(inst: Project) returns (out: seq<nat>)
      ensures ListsWriters(inst, out)
      ensures forall i, j :: 0 <= i < j < |out| ==> out[i] < out[j]
    {
      var granted := GrantedUsers(inst);
      out := [];
      for i := 0 to |snap.tokens|
        invariant forall k :: k in out <==>
                    && 0 <= k < i && LiveToken(k)
                    && var t := snap.tokens[k].token;
                       ((t.scope == ScopeProject && t.project == inst) || t.scope == ScopeUser) && t.user in granted
        invariant forall k :: 0 <= k < |out| ==> out[k] < i
        invariant forall k, j :: 0 <= k < j < |out| ==> out[k] < out[j]
      {
        if LiveToken(i) {
          var t := snap.tokens[i].token;
          var scoped := (t.scope == ScopeProject && t.project == inst) || t.scope == ScopeUser;
          if scoped && t.user in granted {
            out := out + [i];
          }
        }
      }
    }
  }

  /** Whole seconds lose nothing: the expiry is itself in whole seconds. */
  lemma SecondsAgree(expires: nat, now: Time)
    ensures expires > now / SECOND <==> expires * SECOND > now
  {
  }

  /** The CLI's view agrees with the hub's rule, in every state the operations
      reach: a listing that WriteTokens gives holds exactly the tokens that the
      hub lets write. */
  lemma ViewAgreesWithHub(ops: seq<Op>, s: Store, v: AccessView, inst: Project, out: seq<nat>, i: nat)
    requires Reaches(EMPTY, ops, s) && v.Built() && ShowsStore(v.snap, s) && v.ListsWriters(inst, out) && i < |v.snap.tokens|
    ensures i in out <==> CanWriteToken(s, v.now, v.snap.tokens[i].token.user, v.snap.tokens[i].id, inst)
  {
    RunIsSound(EMPTY, ops, s);
    var k := v.snap.tokens[i];
    assert k in v.snap.tokens;
    SecondsAgree(k.token.expires, v.now);
    assert v.IsDisabled(k.token.user) <==> s.users[k.token.user];
    GrantsAgree(s, v, inst, k.token.user);
  }

  lemma GrantsAgree(s: Store, v: AccessView, inst: Project, u: UserId)
    requires v.Built() && ShowsStore(v.snap, s)
    ensures (exists g :: g in v.snap.grants && g.project == inst && v.Reached(g, u)) <==> Granted(s, u, inst)
  {
    if Granted(s, u, inst) {
      if Grant(inst, UserGrant, u) in s.grants {
        assert v.Reached(Grant(inst, UserGrant, u), u);
      } else {
        var g :| Grant(inst, GroupGrant, g) in s.grants && (g, u) in s.members;
        assert v.Reached(Grant(inst, GroupGrant, g), u);
      }
    }
  }
}
