/** Properties relating the queries of the `User` model to each other and to the
    integrity the schema intends (one membership row per pair, roles `user`/`admin`). */
module UserModelLemmas {
  import opened Wrappers
  import opened Schema
  import opened UserModel

  /** With one row per pair, the "first" row every lookup takes is the row. */
  lemma FirstRowIsTheRow(db: Db, u: User, companyId: int, i: nat)
    requires WellFormed(db)
    requires i < |db.memberships| && IsMembership(db.memberships[i], u.id, companyId)
    ensures Invitation(db, u, companyId) == Some(db.memberships[i])
  {
  }

  /** A global administrator passes `isCompanyAdmin` for every company and gets the
      administrator answers of the lookups, rows or not. */
  lemma AdminShortCircuits(db: Db, u: User, companyId: int, activeCompany: Option<int>)
    requires IsAdmin(u)
    ensures IsCompanyAdmin(db, u, companyId)
    ensures GetRole(db, u, companyId) == Success(SITE_ADMIN)
    ensures GetTimezone(db, u, companyId) == Success(None)
    ensures !HasPendingInvitations(db, u)
    ensures GetListOfUsers(db, u, None, activeCompany) == Success(db.users)
  {
  }

  /** For anyone but a global administrator, `isCompanyAdmin` holds exactly when
      the user's row in an existing company carries the `admin` role. */
  lemma CompanyAdminIff(db: Db, u: User, companyId: int)
    requires WellFormed(db) && !IsAdmin(u)
    ensures IsCompanyAdmin(db, u, companyId) <==>
      companyId in db.companies &&
      RowOfPairWith(db.memberships, u.id, companyId, (m: CompanyUser) => m.role == ROLE_ADMIN)
  {
  }

  /** `isCompanyUser` holds exactly when the user's row in an existing company
      carries the `user` role. */
  lemma CompanyUserIff(db: Db, u: User, companyId: int)
    requires WellFormed(db)
    ensures IsCompanyUser(db, u, companyId) <==>
      companyId in db.companies &&
      RowOfPairWith(db.memberships, u.id, companyId, (m: CompanyUser) => m.role == ROLE_USER)
  {
  }

  /** The two roles are separate tiers, not a hierarchy: for an ordinary member,
      exactly one of `isCompanyAdmin` and `isCompanyUser` holds; and a global
      administrator without a row, or anyone whose row says `admin`, is not a
      company user. */
  lemma RolesAreExclusiveTiers(db: Db, u: User, companyId: int)
    requires WellFormed(db)
    ensures !IsAdmin(u) && IsMember(db, u, companyId) ==>
      (IsCompanyUser(db, u, companyId) <==> !IsCompanyAdmin(db, u, companyId))
    ensures !IsMember(db, u, companyId) ==> !IsCompanyUser(db, u, companyId)
    ensures RowOfPairWith(db.memberships, u.id, companyId, (m: CompanyUser) => m.role == ROLE_ADMIN) ==>
      !IsCompanyUser(db, u, companyId)
  {
  }

  /** With one row per pair `belongsToCompany` is membership; duplicate rows, which
      the schema forbids but the code does not prevent, make it false. */
  lemma BelongsToCompanyIsMembership(db: Db, u: User, companyId: int)
    ensures WellFormed(db) ==> (BelongsToCompany(db, u, companyId) <==> IsMember(db, u, companyId))
    ensures (exists i, j :: 0 <= i < j < |db.memberships| &&
               IsMembership(db.memberships[i], u.id, companyId) && IsMembership(db.memberships[j], u.id, companyId)) ==>
      !BelongsToCompany(db, u, companyId)
  {
  }

  /** An ordinary user's role is the one stored in their row, so it is `user` or
      `admin` and never the administrator's `site_admin`. */
  lemma RoleIsTheRowsRole(db: Db, u: User, companyId: int, i: nat)
    requires WellFormed(db) && !IsAdmin(u)
    requires i < |db.memberships| && IsMembership(db.memberships[i], u.id, companyId)
    ensures GetRole(db, u, companyId) == Success(db.memberships[i].role)
    ensures GetRole(db, u, companyId) != Success(SITE_ADMIN)
    ensures IsActive(db, u, companyId) == Success(db.memberships[i].isActive)
  {
  }

  /** `getRole` agrees with the capability probes: `admin` exactly when an ordinary
      user is a company administrator of an existing company. */
  lemma RoleAgreesWithProbes(db: Db, u: User, companyId: int)
    requires WellFormed(db) && !IsAdmin(u) && companyId in db.companies
    ensures GetRole(db, u, companyId) == Success(ROLE_ADMIN) <==> IsCompanyAdmin(db, u, companyId)
    ensures GetRole(db, u, companyId) == Success(ROLE_USER) <==> IsCompanyUser(db, u, companyId)
  {
  }

  /** Where the two relations part: `getRole` reads the un-joined invitations, the
      probes the join on companies. An ordinary user whose row names a company that
      does not exist still gets that row's role, yet passes neither probe. */
  lemma RoleWithoutCompany(db: Db, u: User, companyId: int, i: nat)
    requires WellFormed(db) && !IsAdmin(u) && companyId !in db.companies
    requires i < |db.memberships| && IsMembership(db.memberships[i], u.id, companyId)
    ensures GetRole(db, u, companyId) == Success(db.memberships[i].role)
    ensures !IsCompanyAdmin(db, u, companyId) && !IsCompanyUser(db, u, companyId)
  {
    FirstRowIsTheRow(db, u, companyId, i);
  }

  /** Tenant isolation: the active company is the user's own or nothing, whatever
      companies exist; a global administrator gets no exemption. */
  lemma ActiveCompanyIsolation(db: Db, u: User, companyId: int)
    requires companyId in db.companies && !HasRow(db.memberships, u.id, companyId)
    ensures GetActiveCompany(db, u, Some(companyId)) == None
    ensures !BelongsToCompany(db, u, companyId) && !IsCompanyUser(db, u, companyId)
    ensures IsCompanyAdmin(db, u, companyId) == IsAdmin(u)
    ensures IsActive(db, u, companyId) == Failure(ModelNotFound)
  {
  }

  /** `isAgencyUser` with a company id holds only for a member of that company, and
      only when it is an agency; a company is never both kinds, so for a given id at
      most one of `isAgencyUser` and `isDealershipUser` holds. A falsy id filters
      nothing. */
  lemma CompanyTypeProbes(db: Db, u: User, companyId: int)
    requires companyId != 0
    ensures IsAgencyUser(db, u, Some(companyId)) <==>
      IsMember(db, u, companyId) && db.companies[companyId].companyType == Agency
    ensures IsDealershipUser(db, u, Some(companyId)) <==>
      IsMember(db, u, companyId) && db.companies[companyId].companyType == Dealership
    ensures !(IsAgencyUser(db, u, Some(companyId)) && IsDealershipUser(db, u, Some(companyId)))
    ensures IsAgencyUser(db, u, Some(0)) == IsAgencyUser(db, u, None)
    ensures IsAgencyUser(db, u, Some(companyId)) ==> IsAgencyUser(db, u, None)
  {
  }

  /** Every membership either is completed for its company or is a pending
      invitation: `completed_at` is the one signal the two queries share. */
  lemma ReadyOrPending(db: Db, u: User, companyId: int)
    requires !IsAdmin(u) && HasRow(db.memberships, u.id, companyId)
    ensures IsCompanyProfileReady(db, u, companyId) || HasPendingInvitations(db, u)
  {
  }

  /** Every campaign listed for a company is one the user may open. */
  lemma ListedCampaignsAreAccessible(db: Db, u: User, companyId: int)
    requires WellFormed(db)
    ensures forall k :: k in GetCampaignsForCompany(db, u, companyId) ==> HasAccessToCampaign(db, u, k.id)
  {
  }

  /** A user still carrying the placeholder name or an empty password has not
      completed the profile; the comparisons are strict, so null columns pass. */
  lemma ProfileCompletion(u: User)
    ensures u.username == Some(PLACEHOLDER_USERNAME) ==> !IsProfileCompleted(u)
    ensures u.password == Some("") ==> !IsProfileCompleted(u)
    ensures u.password == None && u.username == None ==> IsProfileCompleted(u)
  {
  }

  /** An ordinary user who is a member of a dealership (role `user`) and of nothing
      else, with a second company, an agency, present in the store. */
  function ScenarioDb(): Db {
    Db([User(1, false, Some("hash"), Some("alice"))],
       map[1 := Company(1, Dealership), 2 := Company(2, Agency)],
       [CompanyUser(1, 1, ROLE_USER, map[TIMEZONE_KEY := "US/Eastern"], true, Some(0))],
       map[],
       [])
  }

  lemma ScenarioOrdinaryUser()
    ensures var db, a := ScenarioDb(), User(1, false, Some("hash"), Some("alice"));
      && IsCompanyUser(db, a, 1) && !IsCompanyAdmin(db, a, 1)
      && IsDealershipUser(db, a, Some(1)) && !IsAgencyUser(db, a, Some(1))
      && GetRole(db, a, 1) == Success(ROLE_USER)
      && GetRole(db, a, 2) == Failure(ModelNotFound)
      && !BelongsToCompany(db, a, 2) && BelongsToCompany(db, a, 1)
      && GetActiveCompany(db, a, Some(2)) == None
      && GetTimezone(db, a, 1) == Success(Some("US/Eastern"))
      && GetListOfUsers(db, a, None, Some(1)) == Success([])
  {
  }

  lemma ScenarioGlobalAdmin()
    ensures var db, b := ScenarioDb(), User(7, true, None, None);
      && IsAdmin(b) && IsCompanyAdmin(db, b, 99)
      && GetRole(db, b, 99) == Success(SITE_ADMIN)
      && GetListOfUsers(db, b, None, None) == Success(db.users)
      && GetListOfUsers(db, b, Some(99), None) == Failure(ModelNotFound)
      && !IsCompanyUser(db, b, 1)
      && GetActiveCompany(db, b, Some(1)) == None
      && IsActive(db, b, 1) == Failure(ModelNotFound)
  {
  }
}
