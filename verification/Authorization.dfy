/**
 Who may change a package (crates/api/src/request_auth.rs), and the simpler check that the Cargo and
 Maven adapters make (crates/adapters/cargo-registry/src/routes.rs, crates/adapters/maven/src/routes.rs).
 The tables are finite relations, and `LIMIT 1` may pick any row of a join.
 */
module Authorization {
  import opened Common

  type OrgId = nat
  type UserId = nat
  type TeamId = nat
  type PackageId = nat
  type RepositoryId = nat

  datatype Role = Owner | Admin | Maintainer | Publisher | SecurityManager | Auditor | BillingManager | Viewer

  datatype Permission = AdminGrant | PublishGrant | WriteMetadata | ReadPrivate | SecurityReviewGrant | TransferOwnershipGrant

  datatype Membership = Membership(org: OrgId, user: UserId, role: Role)

  /** A permission of a team on a package or on a repository. */
  datatype Grant = Grant(team: TeamId, target: nat, permission: Permission)

  datatype Package = Package(repository: RepositoryId, ownerUser: Option<UserId>, ownerOrg: Option<OrgId>)

  /** `orgs` holds `mfa_required`, `users` holds `mfa_enabled`, and `teams` the organization of each team. */
  datatype Db = Db(
    orgs: map<OrgId, bool>,
    users: map<UserId, bool>,
    memberships: set<Membership>,
    teams: map<TeamId, OrgId>,
    teamMembers: set<(TeamId, UserId)>,
    packages: map<PackageId, Package>,
    repositoryOwners: map<RepositoryId, Option<OrgId>>,
    packageGrants: set<Grant>,
    repositoryGrants: set<Grant>)

  datatype Requirement = MetadataWrite | Publish | AdminAccess | TransferOwnership | SecurityReview | ManagementVisibility
  {
    function OrgRoles(): set<Role> {
      match this
      case MetadataWrite => {Owner, Admin, Maintainer}
      case Publish => {Owner, Admin, Maintainer, Publisher}
      case AdminAccess => {Owner, Admin}
      case TransferOwnership => {Owner, Admin}
      case SecurityReview => {Owner, Admin}
      case ManagementVisibility => {Owner, Admin, Maintainer, Publisher}
    }

    /** The same permissions count on the package and on its repository. */
    function TeamPermissions(): set<Permission> {
      match this
      case MetadataWrite => {AdminGrant, WriteMetadata}
      case Publish => {AdminGrant, PublishGrant}
      case AdminAccess => {AdminGrant}
      case TransferOwnership => {AdminGrant, TransferOwnershipGrant}
      case SecurityReview => {AdminGrant, SecurityReviewGrant}
      case ManagementVisibility => {AdminGrant, PublishGrant, WriteMetadata, SecurityReviewGrant, TransferOwnershipGrant}
    }
  }

  datatype Access = MissingPermission | MfaRequired | Allowed
  {
    function Rank(): nat {
      if MissingPermission? then 0 else if MfaRequired? then 1 else 2
    }
  }

  // ---------------------------------------------------------------- the queries

  /** A row that the role query can return. */
  predicate RoleRow(db: Db, org: OrgId, actor: UserId, roles: set<Role>, m: Membership) {
    m in db.memberships && m.org == org && m.user == actor && m.role in roles && org in db.orgs && actor in db.users
  }

  /** A row that a grant query can return: `owner` is the owning organization of the grant's target. */
  predicate GrantRow(db: Db, grants: set<Grant>, target: nat, owner: Option<OrgId>, actor: UserId,
                     permissions: set<Permission>, g: Grant) {
    && g in grants && g.target == target && (g.team, actor) in db.teamMembers && g.permission in permissions
    && g.team in db.teams && owner == Some(db.teams[g.team])
    && db.teams[g.team] in db.orgs && actor in db.users
  }

  function RepositoryOwner(db: Db, r: RepositoryId): Option<OrgId> {
    if r in db.repositoryOwners then db.repositoryOwners[r] else None
  }

  /** The rows that the three queries of one decision return. */
  datatype Picks = Picks(role: Option<Membership>, packageGrant: Option<Grant>, repositoryGrant: Option<Grant>)

  ghost predicate Returned(db: Db, p: PackageId, actor: UserId, req: Requirement, picks: Picks)
    requires p in db.packages && db.packages[p].ownerOrg.Some?
  {
    var org := db.packages[p].ownerOrg.value;
    var repo := db.packages[p].repository;
    && (if picks.role.Some? then RoleRow(db, org, actor, req.OrgRoles(), picks.role.value)
        else forall m :: !RoleRow(db, org, actor, req.OrgRoles(), m))
    && (if picks.packageGrant.Some?
        then GrantRow(db, db.packageGrants, p, Some(org), actor, req.TeamPermissions(), picks.packageGrant.value)
        else forall g :: !GrantRow(db, db.packageGrants, p, Some(org), actor, req.TeamPermissions(), g))
    && (if picks.repositoryGrant.Some?
        then GrantRow(db, db.repositoryGrants, repo, RepositoryOwner(db, repo), actor, req.TeamPermissions(), picks.repositoryGrant.value)
        else forall g :: !GrantRow(db, db.repositoryGrants, repo, RepositoryOwner(db, repo), actor, req.TeamPermissions(), g))
  }

  // ---------------------------------------------------------------- the cascade

  function ResolveOrgWriteRoleAccess(role: Option<Role>, mfaRequired: bool, mfaEnabled: bool): Access {
    if role.None? then MissingPermission
    else if mfaRequired && role.value in {Owner, Admin, Maintainer, Publisher, SecurityManager} && !mfaEnabled then MfaRequired
    else Allowed
  }

  function ResolveTeamWriteAccess(hasPermission: bool, mfaRequired: bool, mfaEnabled: bool): Access {
    if !hasPermission then MissingPermission
    else if mfaRequired && !mfaEnabled then MfaRequired
    else Allowed
  }

  function AuthorizeOrgWriteRoles(db: Db, row: Option<Membership>): Access {
    if row.Some? && row.value.org in db.orgs && row.value.user in db.users
    then ResolveOrgWriteRoleAccess(Some(row.value.role), db.orgs[row.value.org], db.users[row.value.user])
    else ResolveOrgWriteRoleAccess(None, false, false)
  }

  function AuthorizeTeam(db: Db, actor: UserId, row: Option<Grant>): Access {
    if row.Some? && row.value.team in db.teams && db.teams[row.value.team] in db.orgs && actor in db.users
    then ResolveTeamWriteAccess(true, db.orgs[db.teams[row.value.team]], db.users[actor])
    else ResolveTeamWriteAccess(false, false, false)
  }

  function AuthorizePackageWriteAccess(db: Db, p: PackageId, actor: UserId, picks: Picks): Access
    requires p in db.packages
  {
    if db.packages[p].ownerUser == Some(actor) then Allowed
    else if db.packages[p].ownerOrg.None? then MissingPermission
    else
      var byRole := AuthorizeOrgWriteRoles(db, picks.role);
      if !byRole.MissingPermission? then byRole
      else
        var byPackage := AuthorizeTeam(db, actor, picks.packageGrant);
        if !byPackage.MissingPermission? then byPackage
        else AuthorizeTeam(db, actor, picks.repositoryGrant)
  }

  // ---------------------------------------------------------------- the rule

  predicate HasRole(db: Db, org: OrgId, actor: UserId, roles: set<Role>) {
    exists m :: m in db.memberships && RoleRow(db, org, actor, roles, m)
  }

  predicate HasGrant(db: Db, grants: set<Grant>, target: nat, owner: Option<OrgId>, actor: UserId, permissions: set<Permission>) {
    exists g :: g in grants && GrantRow(db, grants, target, owner, actor, permissions, g)
  }

  /** The organization demands a second factor that the actor does not have. */
  predicate Blocked(db: Db, org: Option<OrgId>, actor: UserId) {
    org.Some? && org.value in db.orgs && db.orgs[org.value] && actor in db.users && !db.users[actor]
  }

  predicate ByPackage(db: Db, p: PackageId, actor: UserId, req: Requirement)
    requires p in db.packages && db.packages[p].ownerOrg.Some?
  {
    || HasRole(db, db.packages[p].ownerOrg.value, actor, req.OrgRoles())
    || HasGrant(db, db.packageGrants, p, db.packages[p].ownerOrg, actor, req.TeamPermissions())
  }

  predicate ByRepository(db: Db, p: PackageId, actor: UserId, req: Requirement)
    requires p in db.packages
  {
    var repo := db.packages[p].repository;
    HasGrant(db, db.repositoryGrants, repo, RepositoryOwner(db, repo), actor, req.TeamPermissions())
  }

  /**
   The rule: the owner may; others need a role or a grant, and are held to the second-factor policy of
   the organization that owns the package, or, with a grant on the repository only, of the one that
   owns the repository.
   */
  function Rule(db: Db, p: PackageId, actor: UserId, req: Requirement): Access
    requires p in db.packages
  {
    var pkg := db.packages[p];
    if pkg.ownerUser == Some(actor) then Allowed
    else if pkg.ownerOrg.None? then MissingPermission
    else if ByPackage(db, p, actor, req) then (if Blocked(db, pkg.ownerOrg, actor) then MfaRequired else Allowed)
    else if ByRepository(db, p, actor, req) then (if Blocked(db, RepositoryOwner(db, pkg.repository), actor) then MfaRequired else Allowed)
    else MissingPermission
  }

  /** Whichever rows `LIMIT 1` picks, the cascade decides by the rule. */
  lemma CascadeFollowsRule(db: Db, p: PackageId, actor: UserId, req: Requirement, picks: Picks)
    requires p in db.packages
    requires db.packages[p].ownerOrg.Some? ==> Returned(db, p, actor, req, picks)
    ensures AuthorizePackageWriteAccess(db, p, actor, picks) == Rule(db, p, actor, req)
  {
    if db.packages[p].ownerOrg.Some? {
      RolePicked(db, p, actor, req, picks);
      PackageGrantPicked(db, p, actor, req, picks);
      RepositoryGrantPicked(db, p, actor, req, picks);
      hide Returned, HasRole, HasGrant, AuthorizeOrgWriteRoles, AuthorizeTeam, Blocked, RepositoryOwner;
    }
  }

  lemma RolePicked(db: Db, p: PackageId, actor: UserId, req: Requirement, picks: Picks)
    requires p in db.packages && db.packages[p].ownerOrg.Some? && Returned(db, p, actor, req, picks)
    ensures var org := db.packages[p].ownerOrg;
      AuthorizeOrgWriteRoles(db, picks.role) ==
        if !HasRole(db, org.value, actor, req.OrgRoles()) then MissingPermission
        else if Blocked(db, org, actor) then MfaRequired else Allowed
  {
    hide GrantRow;
    if picks.role.Some? {
      assert picks.role.value in db.memberships;
    }
  }

  lemma PackageGrantPicked(db: Db, p: PackageId, actor: UserId, req: Requirement, picks: Picks)
    requires p in db.packages && db.packages[p].ownerOrg.Some? && Returned(db, p, actor, req, picks)
    ensures var org := db.packages[p].ownerOrg;
      AuthorizeTeam(db, actor, picks.packageGrant) ==
        if !HasGrant(db, db.packageGrants, p, org, actor, req.TeamPermissions()) then MissingPermission
        else if Blocked(db, org, actor) then MfaRequired else Allowed
  {
    hide RoleRow;
    assert db.packages[p].ownerOrg == Some(db.packages[p].ownerOrg.value);
    if picks.packageGrant.Some? {
      assert picks.packageGrant.value in db.packageGrants;
    }
  }

  lemma RepositoryGrantPicked(db: Db, p: PackageId, actor: UserId, req: Requirement, picks: Picks)
    requires p in db.packages && db.packages[p].ownerOrg.Some? && Returned(db, p, actor, req, picks)
    ensures var owner := RepositoryOwner(db, db.packages[p].repository);
      AuthorizeTeam(db, actor, picks.repositoryGrant) ==
        if !ByRepository(db, p, actor, req) then MissingPermission
        else if Blocked(db, owner, actor) then MfaRequired else Allowed
  {
    hide RoleRow;
    if picks.repositoryGrant.Some? {
      assert picks.repositoryGrant.value in db.repositoryGrants;
    }
  }

  // ---------------------------------------------------------------- more rights never hurt, with one owner

  function RoleRank(r: Role): nat {
    match r
    case Owner => 4
    case Admin => 3
    case Maintainer => 2
    case Publisher => 1
    case _ => 0
  }

  /** Members are promoted or added, team members and grants added, second factors enabled; nothing else changes. */
  ghost predicate Improves(db: Db, db': Db) {
    && db'.orgs == db.orgs && db'.teams == db.teams && db'.packages == db.packages && db'.repositoryOwners == db.repositoryOwners
    && db'.users.Keys == db.users.Keys && (forall u | u in db.users :: db.users[u] ==> db'.users[u])
    && (forall m | m in db.memberships :: exists m' :: m' in db'.memberships && Promotes(m, m'))
    && db.teamMembers <= db'.teamMembers
    && db.packageGrants <= db'.packageGrants
    && db.repositoryGrants <= db'.repositoryGrants
  }

  predicate Promotes(m: Membership, m': Membership) {
    m'.org == m.org && m'.user == m.user && RoleRank(m.role) <= RoleRank(m'.role)
  }

  lemma RolesUpwardClosed(req: Requirement, r: Role, r': Role)
    requires r in req.OrgRoles() && RoleRank(r) <= RoleRank(r')
    ensures r' in req.OrgRoles()
  {
  }

  lemma HasRoleGrows(db: Db, db': Db, org: OrgId, actor: UserId, req: Requirement)
    requires Improves(db, db') && HasRole(db, org, actor, req.OrgRoles())
    ensures HasRole(db', org, actor, req.OrgRoles())
  {
    var m :| m in db.memberships && RoleRow(db, org, actor, req.OrgRoles(), m);
    var m' :| m' in db'.memberships && Promotes(m, m');
    RolesUpwardClosed(req, m.role, m'.role);
  }

  lemma HasGrantGrows(db: Db, db': Db, grants: set<Grant>, grants': set<Grant>, target: nat, owner: Option<OrgId>,
                      actor: UserId, permissions: set<Permission>)
    requires Improves(db, db') && grants <= grants' && HasGrant(db, grants, target, owner, actor, permissions)
    ensures HasGrant(db', grants', target, owner, actor, permissions)
  {
    hide RoleRow;
    var g :| g in grants && GrantRow(db, grants, target, owner, actor, permissions, g);
    assert GrantRow(db', grants', target, owner, actor, permissions, g);
  }

  /**
   When being held to the package owner's policy is no worse than being held to the repository
   owner's, more rights never turn into fewer.
   */
  lemma RuleMonotoneUnlessStricter(db: Db, db': Db, p: PackageId, actor: UserId, req: Requirement)
    requires Improves(db, db') && p in db.packages
    requires Blocked(db', db.packages[p].ownerOrg, actor) ==>
               Blocked(db, RepositoryOwner(db, db.packages[p].repository), actor)
    ensures Rule(db, p, actor, req).Rank() <= Rule(db', p, actor, req).Rank()
  {
    if db.packages[p].ownerOrg.Some? {
      var pkg := db.packages[p];
      if HasRole(db, pkg.ownerOrg.value, actor, req.OrgRoles()) {
        HasRoleGrows(db, db', pkg.ownerOrg.value, actor, req);
      }
      if HasGrant(db, db.packageGrants, p, pkg.ownerOrg, actor, req.TeamPermissions()) {
        HasGrantGrows(db, db', db.packageGrants, db'.packageGrants, p, pkg.ownerOrg, actor, req.TeamPermissions());
      }
      if ByRepository(db, p, actor, req) {
        HasGrantGrows(db, db', db.repositoryGrants, db'.repositoryGrants, pkg.repository,
                      RepositoryOwner(db, pkg.repository), actor, req.TeamPermissions());
      }
      BlockedLess(db, db', actor);
      hide HasRole, HasGrant, Improves, Blocked;
    }
  }

  lemma BlockedLess(db: Db, db': Db, actor: UserId)
    requires Improves(db, db')
    ensures forall org :: Blocked(db', org, actor) ==> Blocked(db, org, actor)
  {
    hide Promotes;
  }

  /** In particular when one organization owns both. */
  lemma RuleMonotoneWithOneOwner(db: Db, db': Db, p: PackageId, actor: UserId, req: Requirement)
    requires Improves(db, db') && p in db.packages
    requires RepositoryOwner(db, db.packages[p].repository) == db.packages[p].ownerOrg
    ensures Rule(db, p, actor, req).Rank() <= Rule(db', p, actor, req).Rank()
  {
    BlockedLess(db, db', actor);
    hide Improves, Blocked, Rule;
    RuleMonotoneUnlessStricter(db, db', p, actor, req);
  }

  /**
   More rights would cost this actor something: the second factor is missing for the package's owner,
   and the access there is now comes from the repository, whose owner does not ask for one.
   */
  predicate RightsWouldCost(db: Db, p: PackageId, actor: UserId, req: Requirement)
    requires p in db.packages
  {
    && db.packages[p].ownerUser != Some(actor)
    && db.packages[p].ownerOrg.Some?
    && Blocked(db, db.packages[p].ownerOrg, actor)
    && Rule(db, p, actor, req).Allowed?
  }

  /** One role for each member of an organization. */
  predicate OneRolePerMember(db: Db) {
    forall m, m' | m in db.memberships && m' in db.memberships && m.org == m'.org && m.user == m'.user :: m == m'
  }

  /** The actor made an owner of the organization, in place of the role there was. */
  function WithOwner(db: Db, org: OrgId, actor: UserId): Db {
    db.(memberships := (set m | m in db.memberships && !(m.org == org && m.user == actor)) + {Membership(org, actor, Owner)})
  }

  lemma WithOwnerImproves(db: Db, org: OrgId, actor: UserId)
    ensures Improves(db, WithOwner(db, org, actor))
    ensures OneRolePerMember(db) ==> OneRolePerMember(WithOwner(db, org, actor))
  {
    var db' := WithOwner(db, org, actor);
    var owner := Membership(org, actor, Owner);
    forall m | m in db.memberships ensures exists m' :: m' in db'.memberships && Promotes(m, m') {
      var m' := if m.org == org && m.user == actor then owner else m;
      assert m' in db'.memberships && Promotes(m, m');
    }
  }

  lemma OwnerIsStopped(db: Db, p: PackageId, actor: UserId, req: Requirement)
    requires p in db.packages && RightsWouldCost(db, p, actor, req)
    ensures Rule(WithOwner(db, db.packages[p].ownerOrg.value, actor), p, actor, req).MfaRequired?
  {
    var org := db.packages[p].ownerOrg.value;
    var db' := WithOwner(db, org, actor);
    assert RoleRow(db', org, actor, req.OrgRoles(), Membership(org, actor, Owner));
    assert HasRole(db', org, actor, req.OrgRoles());
    hide HasGrant, HasRole;
  }

  lemma OnlyThenCosts(db: Db, db': Db, p: PackageId, actor: UserId, req: Requirement)
    requires Improves(db, db') && p in db.packages
    requires Rule(db', p, actor, req).Rank() < Rule(db, p, actor, req).Rank()
    ensures RightsWouldCost(db, p, actor, req)
  {
    BlockedLess(db, db', actor);
    if Blocked(db', db.packages[p].ownerOrg, actor) ==> Blocked(db, RepositoryOwner(db, db.packages[p].repository), actor) {
      RuleMonotoneUnlessStricter(db, db', p, actor, req);
    } else {
      if Rule(db, p, actor, req).MfaRequired? {
        MfaKeepsRank(db, db', p, actor, req);
      }
      hide HasRole, HasGrant, Improves, Blocked;
    }
  }

  /** Neither a missing permission nor a missing second factor can become less. */
  lemma MfaKeepsRank(db: Db, db': Db, p: PackageId, actor: UserId, req: Requirement)
    requires Improves(db, db') && p in db.packages && Rule(db, p, actor, req).MfaRequired?
    ensures !Rule(db', p, actor, req).MissingPermission?
  {
    var pkg := db.packages[p];
    if HasRole(db, pkg.ownerOrg.value, actor, req.OrgRoles()) {
      HasRoleGrows(db, db', pkg.ownerOrg.value, actor, req);
    }
    if HasGrant(db, db.packageGrants, p, pkg.ownerOrg, actor, req.TeamPermissions()) {
      HasGrantGrows(db, db', db.packageGrants, db'.packageGrants, p, pkg.ownerOrg, actor, req.TeamPermissions());
    }
    if ByRepository(db, p, actor, req) {
      HasGrantGrows(db, db', db.repositoryGrants, db'.repositoryGrants, pkg.repository,
                    RepositoryOwner(db, pkg.repository), actor, req.TeamPermissions());
    }
    hide HasRole, HasGrant, Improves, Blocked;
  }

  /**
   With two owners, exactly when: some gain of rights turns a decision into a worse one if and only if
   the actor, who does not own the package, is allowed now although the package owner's policy stops him.
   Making him an owner of that organization is such a gain.
   */
  lemma RightsCostExactlyWhen(db: Db, p: PackageId, actor: UserId, req: Requirement)
    requires p in db.packages
    ensures (exists db': Db :: Improves(db, db') && Rule(db', p, actor, req).Rank() < Rule(db, p, actor, req).Rank())
       <==> RightsWouldCost(db, p, actor, req)
    ensures RightsWouldCost(db, p, actor, req) ==> exists db': Db ::
              Improves(db, db') && (OneRolePerMember(db) ==> OneRolePerMember(db')) && Rule(db', p, actor, req).MfaRequired?
  {
    if RightsWouldCost(db, p, actor, req) {
      var db' := WithOwner(db, db.packages[p].ownerOrg.value, actor);
      WithOwnerImproves(db, db.packages[p].ownerOrg.value, actor);
      OwnerIsStopped(db, p, actor, req);
      hide Improves;
      assert Improves(db, db') && Rule(db', p, actor, req).Rank() < Rule(db, p, actor, req).Rank();
    }
    hide Improves, Rule;
    forall db': Db | Improves(db, db') && Rule(db', p, actor, req).Rank() < Rule(db, p, actor, req).Rank()
      ensures RightsWouldCost(db, p, actor, req)
    {
      OnlyThenCosts(db, db', p, actor, req);
    }
  }

  /** The actor holds a publish grant on the repository only, through team `onRepository`. */
  function RepositoryGrantOnly(db: Db, p: PackageId, actor: UserId, onPackage: TeamId, onRepository: TeamId): Db
    requires p in db.packages && db.packages[p].ownerOrg.Some?
    requires RepositoryOwner(db, db.packages[p].repository).Some?
  {
    db.(memberships := {}, packageGrants := {},
        teams := db.teams[onPackage := db.packages[p].ownerOrg.value]
                         [onRepository := RepositoryOwner(db, db.packages[p].repository).value],
        teamMembers := {(onPackage, actor), (onRepository, actor)},
        repositoryGrants := {Grant(onRepository, db.packages[p].repository, PublishGrant)})
  }

  /**
   It does happen: when the package owner's policy stops the actor and the repository owner's does not,
   granting the actor's team a permission on the package takes publishing away.
   */
  lemma StricterOwnerBreaksMonotonicity(db: Db, p: PackageId, actor: UserId, onPackage: TeamId, onRepository: TeamId)
    requires p in db.packages && db.packages[p].ownerUser != Some(actor) && onPackage != onRepository
    requires db.packages[p].ownerOrg.Some? && Blocked(db, db.packages[p].ownerOrg, actor)
    requires RepositoryOwner(db, db.packages[p].repository).Some? && RepositoryOwner(db, db.packages[p].repository).value in db.orgs
    requires !Blocked(db, RepositoryOwner(db, db.packages[p].repository), actor)
    ensures var before := RepositoryGrantOnly(db, p, actor, onPackage, onRepository);
            var after := before.(packageGrants := {Grant(onPackage, p, PublishGrant)});
      && Improves(before, after)
      && Rule(before, p, actor, Publish).Allowed? && RightsWouldCost(before, p, actor, Publish)
      && Rule(after, p, actor, Publish).MfaRequired?
  {
    var before := RepositoryGrantOnly(db, p, actor, onPackage, onRepository);
    var after := before.(packageGrants := {Grant(onPackage, p, PublishGrant)});
    var repo := db.packages[p].repository;
    assert !HasRole(before, db.packages[p].ownerOrg.value, actor, Publish.OrgRoles());
    assert !HasGrant(before, {}, p, db.packages[p].ownerOrg, actor, Publish.TeamPermissions());
    var g := Grant(onRepository, repo, PublishGrant);
    assert GrantRow(before, before.repositoryGrants, repo, RepositoryOwner(before, repo), actor, Publish.TeamPermissions(), g);
    var g' := Grant(onPackage, p, PublishGrant);
    assert GrantRow(after, after.packageGrants, p, db.packages[p].ownerOrg, actor, Publish.TeamPermissions(), g');
  }

  // ---------------------------------------------------------------- the adapters' check

  /** The rows that its three EXISTS queries look for; they do not join organizations and users. */
  predicate PlainRoleRow(db: Db, org: OrgId, actor: UserId, roles: set<Role>, m: Membership) {
    m in db.memberships && m.org == org && m.user == actor && m.role in roles
  }

  predicate PlainGrantRow(db: Db, grants: set<Grant>, target: nat, owner: Option<OrgId>, actor: UserId,
                          permissions: set<Permission>, g: Grant) {
    && g in grants && g.target == target && (g.team, actor) in db.teamMembers && g.permission in permissions
    && g.team in db.teams && owner == Some(db.teams[g.team])
  }

  predicate PlainHasRole(db: Db, org: OrgId, actor: UserId, roles: set<Role>) {
    exists m :: m in db.memberships && PlainRoleRow(db, org, actor, roles, m)
  }

  predicate PlainHasGrant(db: Db, grants: set<Grant>, target: nat, owner: Option<OrgId>, actor: UserId, permissions: set<Permission>) {
    exists g :: g in grants && PlainGrantRow(db, grants, target, owner, actor, permissions, g)
  }

  /** Which of the three queries fail; a failing query reads as no row. */
  datatype Failures = Failures(role: bool, packageGrant: bool, repositoryGrant: bool)

  function HasPackageWriteAccess(db: Db, p: PackageId, actor: UserId, f: Failures): bool
    requires p in db.packages
  {
    var pkg := db.packages[p];
    if pkg.ownerUser == Some(actor) then true
    else if pkg.ownerOrg.Some? then
      if !f.role && PlainHasRole(db, pkg.ownerOrg.value, actor, {Owner, Admin, Maintainer, Publisher}) then true
      else if !f.packageGrant && PlainHasGrant(db, db.packageGrants, p, pkg.ownerOrg, actor, {AdminGrant, PublishGrant}) then true
      else if f.repositoryGrant then false
      else PlainHasGrant(db, db.repositoryGrants, pkg.repository, RepositoryOwner(db, pkg.repository), actor, {AdminGrant, PublishGrant})
    else false
  }

  /** The foreign keys of memberships, teams and team memberships. */
  predicate ReferentialIntegrity(db: Db) {
    && (forall m | m in db.memberships :: m.org in db.orgs && m.user in db.users)
    && (forall t | t in db.teams :: db.teams[t] in db.orgs)
    && (forall tm | tm in db.teamMembers :: tm.1 in db.users)
  }

  /**
   The adapters let an actor through exactly if the API's decision on publishing is not a missing
   permission; where queries fail they only ever refuse more.
   */
  lemma AdaptersAgreeWithApi(db: Db, p: PackageId, actor: UserId, f: Failures)
    requires ReferentialIntegrity(db) && p in db.packages
    ensures HasPackageWriteAccess(db, p, actor, f) ==> !Rule(db, p, actor, Publish).MissingPermission?
    ensures f == Failures(false, false, false) ==>
              (HasPackageWriteAccess(db, p, actor, f) <==> !Rule(db, p, actor, Publish).MissingPermission?)
  {
    if db.packages[p].ownerOrg.Some? {
      var pkg := db.packages[p];
      SameRoleRows(db, pkg.ownerOrg.value, actor);
      SameGrantRows(db, db.packageGrants, p, pkg.ownerOrg, actor);
      SameGrantRows(db, db.repositoryGrants, pkg.repository, RepositoryOwner(db, pkg.repository), actor);
      hide RoleRow, GrantRow, PlainRoleRow, PlainGrantRow, ReferentialIntegrity;
    }
  }

  lemma SameRoleRows(db: Db, org: OrgId, actor: UserId)
    requires ReferentialIntegrity(db)
    ensures forall m :: PlainRoleRow(db, org, actor, {Owner, Admin, Maintainer, Publisher}, m) <==> RoleRow(db, org, actor, Publish.OrgRoles(), m)
  {
  }

  lemma SameGrantRows(db: Db, grants: set<Grant>, target: nat, owner: Option<OrgId>, actor: UserId)
    requires ReferentialIntegrity(db)
    ensures forall g :: PlainGrantRow(db, grants, target, owner, actor, {AdminGrant, PublishGrant}, g)
                   <==> GrantRow(db, grants, target, owner, actor, Publish.TeamPermissions(), g)
  {
  }

  // ---------------------------------------------------------------- the decision written out

  /** The lowest role with which a member may. */
  function LeastRole(req: Requirement): Role {
    match req
    case MetadataWrite => Maintainer
    case Publish => Publisher
    case ManagementVisibility => Publisher
    case _ => Admin
  }

  predicate RoleSuffices(r: Role, req: Requirement) {
    RoleRank(r) >= RoleRank(LeastRole(req))
  }

  /** What a permission is good for: an admin's for everything, any other's for its own purpose and for being shown the controls. */
  predicate Serves(permission: Permission, req: Requirement) {
    match permission
    case AdminGrant => true
    case PublishGrant => req.Publish? || req.ManagementVisibility?
    case WriteMetadata => req.MetadataWrite? || req.ManagementVisibility?
    case SecurityReviewGrant => req.SecurityReview? || req.ManagementVisibility?
    case TransferOwnershipGrant => req.TransferOwnership? || req.ManagementVisibility?
    case ReadPrivate => false
  }

  lemma TablesAgree(req: Requirement)
    ensures forall r :: r in req.OrgRoles() <==> RoleSuffices(r, req)
    ensures forall g :: g in req.TeamPermissions() <==> Serves(g, req)
  {
  }

  lemma RoleWrittenOut(db: Db, org: OrgId, actor: UserId, req: Requirement)
    requires ReferentialIntegrity(db)
    ensures HasRole(db, org, actor, req.OrgRoles())
       <==> exists m :: m in db.memberships && m.org == org && m.user == actor && RoleSuffices(m.role, req)
  {
    TablesAgree(req);
    hide RoleSuffices;
  }

  lemma GrantWrittenOut(db: Db, grants: set<Grant>, target: nat, owner: Option<OrgId>, actor: UserId, req: Requirement)
    requires ReferentialIntegrity(db)
    ensures HasGrant(db, grants, target, owner, actor, req.TeamPermissions())
       <==> exists g :: g in grants && g.target == target && (g.team, actor) in db.teamMembers
              && g.team in db.teams && Some(db.teams[g.team]) == owner && Serves(g.permission, req)
  {
    TablesAgree(req);
    hide Serves;
    if g :| g in grants && g.target == target && (g.team, actor) in db.teamMembers
              && g.team in db.teams && Some(db.teams[g.team]) == owner && Serves(g.permission, req) {
      assert GrantRow(db, grants, target, owner, actor, req.TeamPermissions(), g);
    }
  }

  /**
   The permission is missing exactly if the actor does not own the package and, should an organization own
   it, has no sufficient role there, is in no team of it with a grant on this package that serves, and in no
   team of the repository's owner with a grant on its repository that serves.
   */
  lemma MissingExactlyWhen(db: Db, p: PackageId, actor: UserId, req: Requirement)
    requires ReferentialIntegrity(db) && p in db.packages
    ensures Rule(db, p, actor, req).MissingPermission? <==>
      && db.packages[p].ownerUser != Some(actor)
      && (db.packages[p].ownerOrg.Some? ==>
            && (forall m | m in db.memberships && m.user == actor && Some(m.org) == db.packages[p].ownerOrg :: !RoleSuffices(m.role, req))
            && (forall g | g in db.packageGrants && g.target == p && (g.team, actor) in db.teamMembers
                  && g.team in db.teams && Some(db.teams[g.team]) == db.packages[p].ownerOrg :: !Serves(g.permission, req))
            && (forall g | g in db.repositoryGrants && g.target == db.packages[p].repository && (g.team, actor) in db.teamMembers
                  && g.team in db.teams && g.target in db.repositoryOwners
                  && db.repositoryOwners[g.target] == Some(db.teams[g.team]) :: !Serves(g.permission, req)))
  {
    var pkg := db.packages[p];
    if pkg.ownerOrg.Some? {
      RoleWrittenOut(db, pkg.ownerOrg.value, actor, req);
      GrantWrittenOut(db, db.packageGrants, p, pkg.ownerOrg, actor, req);
      GrantWrittenOut(db, db.repositoryGrants, pkg.repository, RepositoryOwner(db, pkg.repository), actor, req);
      hide HasRole, HasGrant, ReferentialIntegrity, RoleSuffices, Serves;
    }
  }

  /**
   Where it is not missing and the actor is not the owner, the second factor is what can still be missing:
   the one that the package's organization demands, or, where only grants on the repository serve, the one
   that the repository's organization demands.
   */
  lemma MfaExactlyWhen(db: Db, p: PackageId, actor: UserId, req: Requirement)
    requires ReferentialIntegrity(db) && p in db.packages && actor in db.users && db.packages[p].ownerUser != Some(actor)
    requires !Rule(db, p, actor, req).MissingPermission?
    ensures var org := db.packages[p].ownerOrg; var repo := db.packages[p].repository;
      var onPackage :=
        || (exists m :: m in db.memberships && m.user == actor && Some(m.org) == org && RoleSuffices(m.role, req))
        || (exists g :: g in db.packageGrants && g.target == p && (g.team, actor) in db.teamMembers
              && g.team in db.teams && Some(db.teams[g.team]) == org && Serves(g.permission, req));
      var policy := if onPackage then org else RepositoryOwner(db, repo);
      && policy.Some? && policy.value in db.orgs
      && Rule(db, p, actor, req) == (if db.orgs[policy.value] && !db.users[actor] then MfaRequired else Allowed)
  {
    var pkg := db.packages[p];
    RoleWrittenOut(db, pkg.ownerOrg.value, actor, req);
    GrantWrittenOut(db, db.packageGrants, p, pkg.ownerOrg, actor, req);
    hide RoleSuffices, Serves;
  }

  // ---------------------------------------------------------------- nobody else's rows

  predicate ActorsGrant(db: Db, g: Grant, target: nat, owner: Option<OrgId>, actor: UserId) {
    g.target == target && (g.team, actor) in db.teamMembers && g.team in db.teams && Some(db.teams[g.team]) == owner
  }

  /** The actor's memberships in the owning organization, and the grants on this package and its repository of his teams there. */
  function OwnRows(db: Db, p: PackageId, actor: UserId): Db
    requires p in db.packages
  {
    var org, repo := db.packages[p].ownerOrg, db.packages[p].repository;
    db.(memberships := (set m | m in db.memberships && m.user == actor && Some(m.org) == org),
        packageGrants := (set g | g in db.packageGrants && ActorsGrant(db, g, p, org, actor)),
        repositoryGrants := (set g | g in db.repositoryGrants && ActorsGrant(db, g, repo, RepositoryOwner(db, repo), actor)))
  }

  lemma OwnRoleRows(db: Db, p: PackageId, actor: UserId, req: Requirement)
    requires p in db.packages && db.packages[p].ownerOrg.Some?
    ensures var own := OwnRows(db, p, actor); var org := db.packages[p].ownerOrg.value;
      forall m :: (RoleRow(own, org, actor, req.OrgRoles(), m) <==> RoleRow(db, org, actor, req.OrgRoles(), m))
               && (PlainRoleRow(own, org, actor, req.OrgRoles(), m) <==> PlainRoleRow(db, org, actor, req.OrgRoles(), m))
  {
  }

  lemma OwnGrantRows(db: Db, p: PackageId, actor: UserId, req: Requirement)
    requires p in db.packages && db.packages[p].ownerOrg.Some?
    ensures var own := OwnRows(db, p, actor); var org := db.packages[p].ownerOrg; var repo := db.packages[p].repository;
      forall g ::
        && (GrantRow(own, own.packageGrants, p, org, actor, req.TeamPermissions(), g)
            <==> GrantRow(db, db.packageGrants, p, org, actor, req.TeamPermissions(), g))
        && (GrantRow(own, own.repositoryGrants, repo, RepositoryOwner(own, repo), actor, req.TeamPermissions(), g)
            <==> GrantRow(db, db.repositoryGrants, repo, RepositoryOwner(db, repo), actor, req.TeamPermissions(), g))
        && (PlainGrantRow(own, own.packageGrants, p, org, actor, req.TeamPermissions(), g)
            <==> PlainGrantRow(db, db.packageGrants, p, org, actor, req.TeamPermissions(), g))
        && (PlainGrantRow(own, own.repositoryGrants, repo, RepositoryOwner(own, repo), actor, req.TeamPermissions(), g)
            <==> PlainGrantRow(db, db.repositoryGrants, repo, RepositoryOwner(db, repo), actor, req.TeamPermissions(), g))
  {
  }

  /** No other row of the tables matters: not for the rule, not for the cascade, not for the adapters. */
  lemma OnlyOwnRowsDecide(db: Db, p: PackageId, actor: UserId, req: Requirement, f: Failures)
    requires p in db.packages
    ensures Rule(OwnRows(db, p, actor), p, actor, req) == Rule(db, p, actor, req)
    ensures HasPackageWriteAccess(OwnRows(db, p, actor), p, actor, f) == HasPackageWriteAccess(db, p, actor, f)
  {
    if db.packages[p].ownerOrg.Some? {
      OwnAnswers(db, p, actor, req);
      OwnAnswers(db, p, actor, Publish);
      hide HasRole, HasGrant, PlainHasRole, PlainHasGrant, Blocked, OwnRows;
      SameTables(db, p, actor);
    }
  }

  lemma SameTables(db: Db, p: PackageId, actor: UserId)
    requires p in db.packages
    ensures var own := OwnRows(db, p, actor);
      && own.packages == db.packages && own.repositoryOwners == db.repositoryOwners
      && (forall org :: Blocked(own, org, actor) <==> Blocked(db, org, actor))
  {
  }

  /** Every query answers alike. */
  lemma OwnAnswers(db: Db, p: PackageId, actor: UserId, req: Requirement)
    requires p in db.packages && db.packages[p].ownerOrg.Some?
    ensures var own := OwnRows(db, p, actor); var org := db.packages[p].ownerOrg; var repo := db.packages[p].repository;
            var roles := req.OrgRoles(); var permissions := req.TeamPermissions();
      && HasRole(own, org.value, actor, roles) == HasRole(db, org.value, actor, roles)
      && PlainHasRole(own, org.value, actor, roles) == PlainHasRole(db, org.value, actor, roles)
      && HasGrant(own, own.packageGrants, p, org, actor, permissions) == HasGrant(db, db.packageGrants, p, org, actor, permissions)
      && PlainHasGrant(own, own.packageGrants, p, org, actor, permissions) == PlainHasGrant(db, db.packageGrants, p, org, actor, permissions)
      && HasGrant(own, own.repositoryGrants, repo, RepositoryOwner(db, repo), actor, permissions)
         == HasGrant(db, db.repositoryGrants, repo, RepositoryOwner(db, repo), actor, permissions)
      && PlainHasGrant(own, own.repositoryGrants, repo, RepositoryOwner(db, repo), actor, permissions)
         == PlainHasGrant(db, db.repositoryGrants, repo, RepositoryOwner(db, repo), actor, permissions)
  {
    hide HasRole, HasGrant, PlainHasRole, PlainHasGrant, RoleRow, GrantRow, PlainRoleRow, PlainGrantRow;
    OwnRoleRows(db, p, actor, req);
    OwnGrantRows(db, p, actor, req);
    var own, org, repo := OwnRows(db, p, actor), db.packages[p].ownerOrg, db.packages[p].repository;
    SameRoles(db, own, org.value, actor, req);
    SameGrants(db, own, db.packageGrants, own.packageGrants, p, org, actor, req);
    SameGrants(db, own, db.repositoryGrants, own.repositoryGrants, repo, RepositoryOwner(db, repo), actor, req);
  }

  lemma SameRoles(a: Db, b: Db, org: OrgId, actor: UserId, req: Requirement)
    requires forall m :: (RoleRow(b, org, actor, req.OrgRoles(), m) <==> RoleRow(a, org, actor, req.OrgRoles(), m))
                      && (PlainRoleRow(b, org, actor, req.OrgRoles(), m) <==> PlainRoleRow(a, org, actor, req.OrgRoles(), m))
    ensures HasRole(b, org, actor, req.OrgRoles()) == HasRole(a, org, actor, req.OrgRoles())
    ensures PlainHasRole(b, org, actor, req.OrgRoles()) == PlainHasRole(a, org, actor, req.OrgRoles())
  {
    if m :| m in a.memberships && RoleRow(a, org, actor, req.OrgRoles(), m) {
      assert RoleRow(b, org, actor, req.OrgRoles(), m);
    }
    if m :| m in a.memberships && PlainRoleRow(a, org, actor, req.OrgRoles(), m) {
      assert PlainRoleRow(b, org, actor, req.OrgRoles(), m);
    }
  }

  lemma SameGrants(a: Db, b: Db, ga: set<Grant>, gb: set<Grant>, target: nat, owner: Option<OrgId>, actor: UserId, req: Requirement)
    requires forall g ::
      && (GrantRow(b, gb, target, owner, actor, req.TeamPermissions(), g) <==> GrantRow(a, ga, target, owner, actor, req.TeamPermissions(), g))
      && (PlainGrantRow(b, gb, target, owner, actor, req.TeamPermissions(), g) <==> PlainGrantRow(a, ga, target, owner, actor, req.TeamPermissions(), g))
    ensures HasGrant(b, gb, target, owner, actor, req.TeamPermissions()) == HasGrant(a, ga, target, owner, actor, req.TeamPermissions())
    ensures PlainHasGrant(b, gb, target, owner, actor, req.TeamPermissions()) == PlainHasGrant(a, ga, target, owner, actor, req.TeamPermissions())
  {
    if g :| g in ga && GrantRow(a, ga, target, owner, actor, req.TeamPermissions(), g) {
      assert GrantRow(b, gb, target, owner, actor, req.TeamPermissions(), g);
    }
    if g :| g in ga && PlainGrantRow(a, ga, target, owner, actor, req.TeamPermissions(), g) {
      assert PlainGrantRow(b, gb, target, owner, actor, req.TeamPermissions(), g);
    }
  }

  /** In particular, without such rows nobody but the owner gets through. */
  lemma NoRowsNoAccess(db: Db, p: PackageId, actor: UserId, req: Requirement, f: Failures)
    requires p in db.packages && db.packages[p].ownerUser != Some(actor)
    requires var own := OwnRows(db, p, actor); own.memberships == {} && own.packageGrants == {} && own.repositoryGrants == {}
    ensures Rule(db, p, actor, req).MissingPermission? && !HasPackageWriteAccess(db, p, actor, f)
  {
    OnlyOwnRowsDecide(db, p, actor, req, f);
  }

  /** And one admin grant of a team of the right organization is enough. */
  lemma AdminGrantSuffices(db: Db, p: PackageId, actor: UserId, req: Requirement, team: TeamId)
    requires ReferentialIntegrity(db) && p in db.packages && db.packages[p].ownerOrg.Some?
    requires (team, actor) in db.teamMembers && team in db.teams
    requires var repo := db.packages[p].repository;
      || (Grant(team, p, AdminGrant) in db.packageGrants && db.packages[p].ownerOrg == Some(db.teams[team]))
      || (Grant(team, repo, AdminGrant) in db.repositoryGrants && repo in db.repositoryOwners
          && db.repositoryOwners[repo] == Some(db.teams[team]))
    ensures !Rule(db, p, actor, req).MissingPermission?
    ensures HasPackageWriteAccess(db, p, actor, Failures(false, false, false))
  {
    MissingExactlyWhen(db, p, actor, req);
    MissingExactlyWhen(db, p, actor, Publish);
    AdaptersAgreeWithApi(db, p, actor, Failures(false, false, false));
    hide Rule, HasPackageWriteAccess, ReferentialIntegrity;
  }

  /** A failing query of the adapters reads as one without rows. */
  lemma FailureReadsAsNoRows(db: Db, p: PackageId, actor: UserId, f: Failures)
    requires p in db.packages
    ensures HasPackageWriteAccess(db, p, actor, f)
         == HasPackageWriteAccess(db.(memberships := if f.role then {} else db.memberships,
                                      packageGrants := if f.packageGrant then {} else db.packageGrants,
                                      repositoryGrants := if f.repositoryGrant then {} else db.repositoryGrants),
                                  p, actor, Failures(false, false, false))
  {
    if db.packages[p].ownerOrg.Some? {
      var cut := db.(memberships := if f.role then {} else db.memberships,
                     packageGrants := if f.packageGrant then {} else db.packageGrants,
                     repositoryGrants := if f.repositoryGrant then {} else db.repositoryGrants);
      var pkg := db.packages[p];
      var roles := {Owner, Admin, Maintainer, Publisher};
      forall m ensures PlainRoleRow(cut, pkg.ownerOrg.value, actor, roles, m) <==> !f.role && PlainRoleRow(db, pkg.ownerOrg.value, actor, roles, m) {
      }
      SameCut(db, cut, db.packageGrants, p, pkg.ownerOrg, actor);
      SameCut(db, cut, db.repositoryGrants, pkg.repository, RepositoryOwner(db, pkg.repository), actor);
      hide PlainRoleRow, PlainGrantRow;
    }
  }

  lemma SameCut(db: Db, cut: Db, grants: set<Grant>, target: nat, owner: Option<OrgId>, actor: UserId)
    requires cut.teams == db.teams && cut.teamMembers == db.teamMembers
    ensures forall g :: PlainGrantRow(cut, grants, target, owner, actor, {AdminGrant, PublishGrant}, g)
                   <==> PlainGrantRow(db, grants, target, owner, actor, {AdminGrant, PublishGrant}, g)
  {
  }
}
