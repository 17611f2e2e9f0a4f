/** The relational state the user model reads: the users, companies, company_user,
    campaigns and campaign_user tables, each held in memory as the rows a query sees,
    in result order. */
module Schema {
  import opened Wrappers

  /** `User::ROLE_USER`, `User::ROLE_ADMIN`, and the pseudo-role `getRole` reports
      for a global administrator. */
  const ROLE_USER: string := "user"
  const ROLE_ADMIN: string := "admin"
  const SITE_ADMIN: string := "site_admin"

  /** The config key `getTimezone` reads. */
  const TIMEZONE_KEY: string := "timezone"

  /** The placeholder user name given to an invited user who has not registered yet. */
  const PLACEHOLDER_USERNAME: string := "username"

  /** A row of the users table; `password` and `username` are nullable columns. */
  datatype User = User(id: int, isAdmin: bool, password: Option<string>, username: Option<string>)

  /** `companies.type`. */
  datatype CompanyType = Agency | Dealership

  datatype Company = Company(id: int, companyType: CompanyType)

  /** A row of company_user: the membership (invitation) of one user in one company.
      `config` is the JSON column cast to an array; `completedAt` is null until the
      invitation is completed. */
  datatype CompanyUser = CompanyUser(
    userId: int,
    companyId: int,
    role: string,
    config: map<string, string>,
    isActive: bool,
    completedAt: Option<int>)

  /** A campaign belongs to one agency and one dealership. */
  datatype Campaign = Campaign(id: int, agencyId: int, dealershipId: int)

  /** A row of campaign_user: an explicit grant of one campaign to one user. */
  datatype CampaignUser = CampaignUser(userId: int, campaignId: int)

  /** The whole store, as the queries of one request see it. Companies and campaigns
      are keyed by id; the pivot tables and the users table are sequences of rows. */
  datatype Db = Db(
    users: seq<User>,
    companies: map<int, Company>,
    memberships: seq<CompanyUser>,
    campaigns: map<int, Campaign>,
    grants: seq<CampaignUser>)

  /** The integrity the schema intends but the code never checks: each key maps to
      the row with that id, at most one company_user row per (user, company) pair,
      and every role is `user` or `admin`. */
  ghost predicate WellFormed(db: Db) {
    && (forall k :: k in db.companies ==> db.companies[k].id == k)
    && (forall k :: k in db.campaigns ==> db.campaigns[k].id == k)
    && (forall i, j :: 0 <= i < j < |db.memberships| ==>
          db.memberships[i].userId != db.memberships[j].userId ||
          db.memberships[i].companyId != db.memberships[j].companyId)
    && (forall i :: 0 <= i < |db.memberships| ==>
          db.memberships[i].role == ROLE_USER || db.memberships[i].role == ROLE_ADMIN)
  }

  /** The failures the model distinguishes: `firstOrFail`/`findOrFail` finding no row,
      reading a missing key of an array (a notice the framework raises as an
      exception), and passing null where an `int` parameter is declared. */
  datatype Error = ModelNotFound | UndefinedIndex | TypeError
}
