/** The tenancy and authorization queries of the `User` model (app/Models/User.php),
    as functions over an explicit store snapshot. The session's active company, which
    the source reads from a global helper, is an explicit parameter. */
module UserModel {
  import opened Wrappers
  import opened Schema
  import Query

  // ---------------------------------------------------------------------------
  // Row conditions and the two relations
  // ---------------------------------------------------------------------------

  /** A company_user row of user `userId` in company `companyId`. */
  predicate IsMembership(m: CompanyUser, userId: int, companyId: int) {
    m.userId == userId && m.companyId == companyId
  }

  /** The condition `where('company_id', companyId)` on `$this->invitations()`. */
  function MembershipOf(userId: int, companyId: int): CompanyUser -> bool {
    (m: CompanyUser) => IsMembership(m, userId, companyId)
  }

  /** Some company_user row links the user to the company. */
  ghost predicate HasRow(rows: seq<CompanyUser>, userId: int, companyId: int) {
    exists i :: 0 <= i < |rows| && IsMembership(rows[i], userId, companyId)
  }

  /** Some company_user row of the pair satisfies `p`. */
  ghost predicate RowOfPairWith(rows: seq<CompanyUser>, userId: int, companyId: int, p: CompanyUser -> bool) {
    exists i :: 0 <= i < |rows| && IsMembership(rows[i], userId, companyId) && p(rows[i])
  }

  /** Exactly one company_user row links the user to the company. */
  ghost predicate HasOneRow(rows: seq<CompanyUser>, userId: int, companyId: int) {
    exists i :: 0 <= i < |rows| && IsMembership(rows[i], userId, companyId) &&
      forall j :: 0 <= j < |rows| && IsMembership(rows[j], userId, companyId) ==> j == i
  }

  /** Membership as `$this->companies()` sees it: the relation joins the companies
      table, so the company must exist as well. */
  ghost predicate IsMember(db: Db, u: User, companyId: int) {
    companyId in db.companies && HasRow(db.memberships, u.id, companyId)
  }

  /** `$this->invitations()->where('company_id', $companyId)->first()`. */
  function Invitation(db: Db, u: User, companyId: int): (r: Option<CompanyUser>)
    ensures r.None? <==> !HasRow(db.memberships, u.id, companyId)
    ensures r.Some? ==> r.value in db.memberships && IsMembership(r.value, u.id, companyId)
  {
    match Query.FirstIndex(db.memberships, MembershipOf(u.id, companyId))
    case None => None
    case Some(k) => Some(db.memberships[k])
  }

  /** `$this->companies()->find($companyId)`, reduced to the pivot row it carries. */
  function CompanyPivot(db: Db, u: User, companyId: int): (r: Option<CompanyUser>)
    ensures r.None? <==> !IsMember(db, u, companyId)
    ensures r.Some? ==> r.value in db.memberships && IsMembership(r.value, u.id, companyId)
  {
    if companyId in db.companies then Invitation(db, u, companyId) else None
  }

  // ---------------------------------------------------------------------------
  // Capability probes: absence of a row is `false`, never a failure
  // ---------------------------------------------------------------------------

  /** `(bool)$this->is_admin`: the global administrator flag, a column of the user
      alone, read without consulting any membership. */
  function IsAdmin(u: User): (r: bool)
    ensures r <==> u.isAdmin
  {
    u.isAdmin
  }

  /** A global administrator administers every company; anyone else only a company
      in which their row carries the `admin` role. */
  function IsCompanyAdmin(db: Db, u: User, companyId: int): (r: bool)
    ensures IsAdmin(u) ==> r
    ensures !IsMember(db, u, companyId) ==> r == IsAdmin(u)
    ensures r && !IsAdmin(u) ==>
      RowOfPairWith(db.memberships, u.id, companyId, (m: CompanyUser) => m.role == ROLE_ADMIN)
  {
    if IsAdmin(u) then true
    else match CompanyPivot(db, u, companyId)
      case None => false
      case Some(m) => m.role == ROLE_ADMIN
  }

  /** Role exactly `user` in the company; no short-cut for a global administrator,
      so neither an `admin`-role member nor an administrator without a row passes. */
  function IsCompanyUser(db: Db, u: User, companyId: int): (r: bool)
    ensures !IsMember(db, u, companyId) ==> !r
    ensures r ==>
      RowOfPairWith(db.memberships, u.id, companyId, (m: CompanyUser) => m.role == ROLE_USER)
  {
    match CompanyPivot(db, u, companyId)
    case None => false
    case Some(m) => m.role == ROLE_USER
  }

  /** The joined row count for the pair must be exactly one: no row and duplicate
      rows both give `false`. */
  function BelongsToCompany(db: Db, u: User, companyId: int): (r: bool)
    ensures r <==> companyId in db.companies && HasOneRow(db.memberships, u.id, companyId)
  {
    Query.CountIsOne(db.memberships, MembershipOf(u.id, companyId));
    var count := if companyId in db.companies then Query.Count(db.memberships, MembershipOf(u.id, companyId)) else 0;
    count == 1
  }

  /** `if ($companyId)`: null and 0 both mean "no company filter". */
  predicate FilterApplies(companyId: Option<int>) {
    companyId.Some? && companyId.value != 0
  }

  /** The condition of `isAgencyUser` / `isDealershipUser` on one joined row. */
  function OfCompanyType(companies: map<int, Company>, userId: int, t: CompanyType, companyId: Option<int>): CompanyUser -> bool {
    (m: CompanyUser) => m.userId == userId && m.companyId in companies && companies[m.companyId].companyType == t
         && (FilterApplies(companyId) ==> m.companyId == companyId.value)
  }

  /** Some membership of the user, of any role, is in an existing company of type
      `t` (restricted to the given company when a truthy id is passed). */
  ghost predicate MembershipOfTypeExists(db: Db, u: User, t: CompanyType, companyId: Option<int>) {
    exists i :: 0 <= i < |db.memberships| &&
      db.memberships[i].userId == u.id && db.memberships[i].companyId in db.companies &&
      db.companies[db.memberships[i].companyId].companyType == t &&
      (FilterApplies(companyId) ==> db.memberships[i].companyId == companyId.value)
  }

  /** The joined count of memberships of type `t` is positive. */
  function HasMembershipOfType(db: Db, u: User, t: CompanyType, companyId: Option<int>): (r: bool)
    ensures r <==> MembershipOfTypeExists(db, u, t, companyId)
  {
    Query.Count(db.memberships, OfCompanyType(db.companies, u.id, t, companyId)) > 0
  }

  function IsAgencyUser(db: Db, u: User, companyId: Option<int>): (r: bool)
    ensures r <==> MembershipOfTypeExists(db, u, Agency, companyId)
  {
    HasMembershipOfType(db, u, Agency, companyId)
  }

  function IsDealershipUser(db: Db, u: User, companyId: Option<int>): (r: bool)
    ensures r <==> MembershipOfTypeExists(db, u, Dealership, companyId)
  {
    HasMembershipOfType(db, u, Dealership, companyId)
  }

  /** The condition `whereNull('completed_at')` on the user's invitations. */
  function PendingOf(userId: int): CompanyUser -> bool {
    (m: CompanyUser) => m.userId == userId && m.completedAt.None?
  }

  /** An administrator has no pending invitation; anyone else has one when some
      invitation row is not completed. */
  function HasPendingInvitations(db: Db, u: User): (r: bool)
    ensures r <==> (!IsAdmin(u) &&
      exists i :: 0 <= i < |db.memberships| && db.memberships[i].userId == u.id && db.memberships[i].completedAt.None?)
  {
    if IsAdmin(u) then false
    else Query.Count(db.memberships, PendingOf(u.id)) > 0
  }

  /** The condition `where('company_id', …)->whereNotNull('completed_at')`. */
  function CompletedOf(userId: int, companyId: int): CompanyUser -> bool {
    (m: CompanyUser) => IsMembership(m, userId, companyId) && m.completedAt.Some?
  }

  /** Some invitation of the user in the company has been completed. */
  function IsCompanyProfileReady(db: Db, u: User, companyId: int): (r: bool)
    ensures r <==> RowOfPairWith(db.memberships, u.id, companyId, (m: CompanyUser) => m.completedAt.Some?)
  {
    Query.Count(db.memberships, CompletedOf(u.id, companyId)) > 0
  }

  /** `$this->password !== '' && $this->username !== 'username'`; the comparisons are
      strict, so a null column passes them. */
  function IsProfileCompleted(u: User): (r: bool)
    ensures r <==> (u.password.None? || |u.password.value| > 0) &&
                   (u.username.None? || u.username.value != PLACEHOLDER_USERNAME)
  {
    u.password != Some("") && u.username != Some(PLACEHOLDER_USERNAME)
  }

  // ---------------------------------------------------------------------------
  // Lookups that assume a membership row and fail without one
  // ---------------------------------------------------------------------------

  /** `site_admin` for an administrator, otherwise the role stored in the first row;
      no row is a failure, never a default role. */
  function GetRole(db: Db, u: User, companyId: int): (r: Result<string, Error>)
    ensures IsAdmin(u) ==> r == Success(SITE_ADMIN)
    ensures !IsAdmin(u) ==> (r.Failure? <==> !HasRow(db.memberships, u.id, companyId))
    ensures r.Failure? ==> r.error == ModelNotFound
    ensures !IsAdmin(u) && r.Success? ==>
      RowOfPairWith(db.memberships, u.id, companyId, (m: CompanyUser) => m.role == r.value)
  {
    if IsAdmin(u) then Success(SITE_ADMIN)
    else match Invitation(db, u, companyId)
      case None => Failure(ModelNotFound)
      case Some(m) => Success(m.role)
  }

  /** Null for an administrator, otherwise the row's `config['timezone']`; no row
      fails with not-found, a row whose config lacks the key fails on the index. */
  function GetTimezone(db: Db, u: User, companyId: int): (r: Result<Option<string>, Error>)
    ensures IsAdmin(u) ==> r == Success(None)
    ensures !IsAdmin(u) ==> (r == Failure(ModelNotFound) <==> !HasRow(db.memberships, u.id, companyId))
    ensures r.Failure? ==> r.error != TypeError
    ensures !IsAdmin(u) && r.Success? ==> r.value.Some?
    ensures !IsAdmin(u) && r.Success? && r.value.Some? ==>
      RowOfPairWith(db.memberships, u.id, companyId,
        (m: CompanyUser) => TIMEZONE_KEY in m.config && m.config[TIMEZONE_KEY] == r.value.value)
    ensures r == Failure(UndefinedIndex) ==>
      RowOfPairWith(db.memberships, u.id, companyId, (m: CompanyUser) => TIMEZONE_KEY !in m.config)
  {
    if IsAdmin(u) then Success(None)
    else match Invitation(db, u, companyId)
      case None => Failure(ModelNotFound)
      case Some(m) =>
        if TIMEZONE_KEY in m.config then Success(Some(m.config[TIMEZONE_KEY]))
        else Failure(UndefinedIndex)
  }

  /** The row's `is_active` flag; no short-cut for an administrator, and no row fails. */
  function IsActive(db: Db, u: User, companyId: int): (r: Result<bool, Error>)
    ensures r.Failure? <==> !HasRow(db.memberships, u.id, companyId)
    ensures r.Failure? ==> r.error == ModelNotFound
    ensures r.Success? ==>
      RowOfPairWith(db.memberships, u.id, companyId, (m: CompanyUser) => m.isActive == r.value)
  {
    match Invitation(db, u, companyId)
    case None => Failure(ModelNotFound)
    case Some(m) => Success(m.isActive)
  }

  // ---------------------------------------------------------------------------
  // Active company and the list of visible users
  // ---------------------------------------------------------------------------

  /** The session's active company, resolved only through the user's own memberships:
      a company the user does not belong to is never returned, even if it exists.
      A null id becomes `whereNull` on the key, which matches nothing. */
  function GetActiveCompany(db: Db, u: User, activeCompany: Option<int>): (r: Option<Company>)
    ensures r.Some? <==> activeCompany.Some? && IsMember(db, u, activeCompany.value)
    ensures r.Some? ==> activeCompany.value in db.companies && r.value == db.companies[activeCompany.value]
  {
    match activeCompany
    case None => None
    case Some(a) =>
      match CompanyPivot(db, u, a)
      case None => None
      case Some(_) => Some(db.companies[a])
  }

  /** The users among `users` whose id is `id`, in table order. */
  function UsersWithId(users: seq<User>, id: int): (r: seq<User>)
    ensures forall v :: v in r <==> v in users && v.id == id
  {
    if users == [] then []
    else (if users[0].id == id then [users[0]] else []) + UsersWithId(users[1..], id)
  }

  /** `$company->users`: the users joined to the company through company_user, one
      entry per pivot row, in pivot order. */
  function CompanyUsersOf(users: seq<User>, rows: seq<CompanyUser>, companyId: int): (r: seq<User>)
    ensures forall v :: v in r ==> v in users && HasRow(rows, v.id, companyId)
    ensures forall v :: v in users && HasRow(rows, v.id, companyId) ==> v in r
  {
    if rows == [] then []
    else
      var here := if rows[0].companyId == companyId then UsersWithId(users, rows[0].userId) else [];
      var rest := CompanyUsersOf(users, rows[1..], companyId);
      assert forall id :: HasRow(rows, id, companyId) ==>
        IsMembership(rows[0], id, companyId) || HasRow(rows[1..], id, companyId) by {
        forall id | HasRow(rows, id, companyId)
          ensures IsMembership(rows[0], id, companyId) || HasRow(rows[1..], id, companyId)
        {
          var i :| 0 <= i < |rows| && IsMembership(rows[i], id, companyId);
          if i > 0 { assert rows[1..][i - 1] == rows[i]; }
        }
      }
      assert forall id :: HasRow(rows[1..], id, companyId) ==> HasRow(rows, id, companyId) by {
        forall id | HasRow(rows[1..], id, companyId) ensures HasRow(rows, id, companyId) {
          var i :| 0 <= i < |rows[1..]| && IsMembership(rows[1..][i], id, companyId);
          assert rows[i + 1] == rows[1..][i];
        }
      }
      here + rest
  }

  /** Users of one company, as `Company::findOrFail($id)->users` returns them. */
  function CompanyUsers(db: Db, companyId: int): (r: seq<User>)
    ensures forall v :: v in r <==> v in db.users && HasRow(db.memberships, v.id, companyId)
  {
    CompanyUsersOf(db.users, db.memberships, companyId)
  }

  /** An administrator sees every user, or one company's users when a truthy id is
      passed (failing when that company does not exist); an administrator of the
      active company sees that company's users; anyone else sees nobody. A missing
      active company is null passed to the `int` parameter of `isCompanyAdmin`. */
  function GetListOfUsers(db: Db, u: User, companyId: Option<int>, activeCompany: Option<int>): (r: Result<seq<User>, Error>)
    ensures IsAdmin(u) && !FilterApplies(companyId) ==> r == Success(db.users)
    ensures IsAdmin(u) && FilterApplies(companyId) ==>
      (r.Failure? <==> companyId.value !in db.companies) &&
      (r.Success? ==> forall v :: v in r.value <==> v in db.users && IsMember(db, v, companyId.value))
    ensures IsAdmin(u) && r.Failure? ==> r.error == ModelNotFound
    ensures !IsAdmin(u) && activeCompany.None? ==> r == Failure(TypeError)
    ensures !IsAdmin(u) ==> (r.Failure? <==> activeCompany.None?)
    ensures !IsAdmin(u) && r.Success? ==>
      forall v :: v in r.value ==> v in db.users && IsMember(db, v, activeCompany.value)
    ensures !IsAdmin(u) && activeCompany.Some? && IsCompanyAdmin(db, u, activeCompany.value) ==>
      r.Success? && forall v :: v in db.users && IsMember(db, v, activeCompany.value) ==> v in r.value
    ensures !IsAdmin(u) && activeCompany.Some? && !IsCompanyAdmin(db, u, activeCompany.value) ==>
      r == Success([])
  {
    if IsAdmin(u) then
      if FilterApplies(companyId) then
        if companyId.value in db.companies then Success(CompanyUsers(db, companyId.value))
        else Failure(ModelNotFound)
      else Success(db.users)
    else
      match activeCompany
      case None => Failure(TypeError)
      case Some(a) =>
        if IsCompanyAdmin(db, u, a) then
          if a in db.companies then Success(CompanyUsers(db, a)) else Failure(ModelNotFound)
        else Success([])
  }

  // ---------------------------------------------------------------------------
  // Campaign grants
  // ---------------------------------------------------------------------------

  /** The condition of `$this->campaigns()->find($campaignId)` on one grant row. */
  function GrantOf(userId: int, campaignId: int): CampaignUser -> bool {
    (g: CampaignUser) => g.userId == userId && g.campaignId == campaignId
  }

  /** Access to a campaign is an explicit grant row; the relation joins the campaigns
      table, so the campaign must exist. */
  function HasAccessToCampaign(db: Db, u: User, campaignId: int): (r: bool)
    ensures r <==> (campaignId in db.campaigns &&
      exists i :: 0 <= i < |db.grants| && db.grants[i].userId == u.id && db.grants[i].campaignId == campaignId)
  {
    campaignId in db.campaigns && Query.FirstIndex(db.grants, GrantOf(u.id, campaignId)).Some?
  }

  /** The condition of `getCampaignsForCompany` on one granted campaign. */
  predicate RunsFor(k: Campaign, companyId: int) {
    k.agencyId == companyId || k.dealershipId == companyId
  }

  /** A grant row of `userId` whose campaign exists and runs for `companyId`. */
  predicate GrantFor(campaigns: map<int, Campaign>, g: CampaignUser, userId: int, companyId: int) {
    g.userId == userId && g.campaignId in campaigns && RunsFor(campaigns[g.campaignId], companyId)
  }

  /** The granted campaigns of the user, joined with campaigns and filtered by
      company, one entry per grant row in grant order. */
  function GrantedCampaigns(campaigns: map<int, Campaign>, grants: seq<CampaignUser>, userId: int, companyId: int): (r: seq<Campaign>)
    ensures forall k :: k in r ==> RunsFor(k, companyId)
    ensures forall k :: k in r ==>
      exists i :: 0 <= i < |grants| && GrantFor(campaigns, grants[i], userId, companyId) && campaigns[grants[i].campaignId] == k
    ensures forall i :: 0 <= i < |grants| && GrantFor(campaigns, grants[i], userId, companyId) ==>
      campaigns[grants[i].campaignId] in r
  {
    if grants == [] then []
    else
      var g := grants[0];
      var rest := GrantedCampaigns(campaigns, grants[1..], userId, companyId);
      assert forall i :: 0 < i < |grants| ==> grants[i] == grants[1..][i - 1];
      if GrantFor(campaigns, g, userId, companyId) then [campaigns[g.campaignId]] + rest else rest
  }

  /** Exactly the granted campaigns whose agency or dealership is the company. */
  function GetCampaignsForCompany(db: Db, u: User, companyId: int): (r: seq<Campaign>)
    ensures forall k :: k in r ==> RunsFor(k, companyId) && k in db.campaigns.Values
    ensures forall k :: k in r ==>
      exists i :: 0 <= i < |db.grants| && db.grants[i].userId == u.id &&
                  db.grants[i].campaignId in db.campaigns && db.campaigns[db.grants[i].campaignId] == k
    ensures forall i :: 0 <= i < |db.grants| && GrantFor(db.campaigns, db.grants[i], u.id, companyId) ==>
      db.campaigns[db.grants[i].campaignId] in r
  {
    GrantedCampaigns(db.campaigns, db.grants, u.id, companyId)
  }

  // ---------------------------------------------------------------------------
  // The timezone allow-list
  // ---------------------------------------------------------------------------

  /** The thirteen US timezone identifiers a user may pick from. */
  function PossibleTimezones(): (r: seq<string>)
    ensures |r| == 13
    ensures forall i :: 0 <= i < |r| ==> |r[i]| > 3 && r[i][..3] == "US/"
    ensures forall i, j :: 0 <= i < j < |r| ==> r[i] != r[j]
  {
    [ "US/Alaska", "US/Aleutian", "US/Arizona", "US/Central", "US/East-Indiana",
      "US/Eastern", "US/Hawaii", "US/Indiana-Starke", "US/Michigan", "US/Mountain",
      "US/Pacific", "US/Pacific-New", "US/Samoa" ]
  }
}
