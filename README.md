# Tenancy and authorization of the `User` model

This project models the part of the campaign-management backend that decides what a
user may see and do: the queries of the Eloquent `User` model in `app/Models/User.php`
and the two `authorize()` decisions built on them. A user has a global `is_admin` flag,
membership rows in companies (`company_user`: role `user` or `admin`, a `config` map
with a `timezone` key, `is_active`, `completed_at`), and campaign grant rows
(`campaign_user`). Companies are agencies or dealerships; a campaign belongs to one
agency and one dealership.

The relational state is an explicit in-memory store (`Schema.Db`): the users table,
the companies and campaigns keyed by id, and the two pivot tables as sequences of rows
in result order. The read queries are functions over that store. `activate` and
`deactivate` are methods of a `Store` class whose table fields they reassign, each
updating the first matching membership row in place.

The two failure styles of the source are kept apart:
- Capability probes never fail when there is no row. They return `false`:
  `IsCompanyUser`, `BelongsToCompany`, `IsAgencyUser`, `IsDealershipUser`,
  `HasAccessToCampaign`. The exception is `IsCompanyAdmin`, which returns the global
  administrator flag, so a global administrator gets `true`.
- Lookups that go through `firstOrFail` return a `Result` whose failure is
  `ModelNotFound` when the row is missing: `GetRole`, `GetTimezone`, `IsActive`.
  `GetTimezone` also fails with `UndefinedIndex` when the row's config has no
  `timezone` key.
- The writes `Activate` and `Deactivate` return an `Outcome`: `Pass`, or
  `Fail(ModelNotFound)` when the row is missing.

The active company comes from a global session helper in the source. Here it is an
explicit `Option<int>` parameter.

Modules:
- `Wrappers`: Option, Result, Outcome.
- `Query`: counting rows and finding the first matching row (`where`/`count`/`first`).
- `Schema`: the tables, the constants, and the intended integrity `WellFormed`. That
  predicate says there is one membership row per (user, company) pair and every role
  is `user` or `admin`.
- `UserModel`: the read queries.
- `UserStore`: the writes.
- `UserModelLemmas`: properties relating the queries.
- `Requests`: the `authorize()` decisions.

The model follows these details of the code:
- `isAgencyUser`/`isDealershipUser` test `if ($companyId)`, so an id of 0 means "no
  filter".
- `companies()` is a join with the companies table, so the probes that use it need
  the company to exist. The `invitations()` lookups (`getRole`, `getTimezone`,
  `isActive`, `activate`, `deactivate`) do not.
- `getListOfUsers` can fail in two ways. `findOrFail` fails on an unknown company id
  passed by an administrator. A missing active company is null passed to the `int`
  parameter of `isCompanyAdmin`, which PHP rejects with a type error.
- `getTimezone` fails when the row's config has no `timezone` key. The framework turns
  the undefined-index notice into an exception.
- `getActiveCompany` has no short-cut for administrators. A global administrator
  without a row gets no active company.

## Model

| member | source | states |
|---|---|---|
| Query.CountIsOne | app/Models/User.php:91 | a count of exactly one means one matching row and no other, so duplicates never count as one |
| UserModel.Invitation | app/Models/User.php:153-156 | the first membership row of the pair is absent exactly when the pair has no row, and is a row of that pair otherwise |
| UserModel.CompanyPivot | app/Models/User.php:97-100 | the joined pivot row exists exactly when the company exists and the pair has a row |
| UserModel.IsAdmin | app/Models/User.php:163-166 | the global administrator flag is the user's own `is_admin` column, read without any membership |
| UserModel.IsCompanyAdmin | app/Models/User.php:168-175 | a global admin passes for every company; without a membership the answer is the admin flag, never a failure; a true answer for a non-admin comes from an `admin`-role row |
| UserModelLemmas.CompanyAdminIff | app/Models/User.php:168-175 | for a non-admin, with one row per pair: company admin iff the company exists and the user's row has role `admin` |
| UserModel.IsCompanyUser | app/Models/User.php:177-184 | false without a membership (also for a global admin); true only from a row whose role is exactly `user` |
| UserModelLemmas.CompanyUserIff | app/Models/User.php:177-184 | with one row per pair: company user iff the company exists and the user's row has role `user` |
| UserModelLemmas.RolesAreExclusiveTiers | app/Models/User.php:168-184 | with one row per pair and roles `user`/`admin`, for an ordinary member exactly one of company-admin and company-user holds; an `admin`-role row or no row gives not company-user |
| UserModel.BelongsToCompany | app/Models/User.php:89-92 | true iff the company exists and exactly one membership row links the pair |
| UserModelLemmas.BelongsToCompanyIsMembership | app/Models/User.php:89-92 | with one row per pair, belonging is membership; two rows for the pair give false |
| UserModel.GetRole | app/Models/User.php:126-133 | `site_admin` for a global admin; otherwise fails with not-found exactly when no row exists, and a success is the role stored in a row of the pair |
| UserModelLemmas.RoleIsTheRowsRole | app/Models/User.php:126-133 | with one row per pair, a non-admin's role and active flag are those of their row, and the role is never `site_admin` |
| UserModelLemmas.RoleAgreesWithProbes | app/Models/User.php:126-133 | for a non-admin, with one row per pair and an existing company: the role is `admin` iff `IsCompanyAdmin` holds and `user` iff `IsCompanyUser` holds |
| UserModelLemmas.RoleWithoutCompany | app/Models/User.php:126-184 | where the two relations diverge: for a non-admin whose row names a company that does not exist, `getRole` still returns that row's role (un-joined `invitations()`), but neither `isCompanyAdmin` nor `isCompanyUser` holds (the `companies()` join) |
| UserModelLemmas.FirstRowIsTheRow | app/Models/User.php:131 | with one row per pair, the first row `firstOrFail` returns is the pair's row |
| UserModel.GetTimezone | app/Models/User.php:135-142 | null for a global admin; otherwise not-found exactly when no row exists, the row's `timezone` config value on success, an index failure when the row lacks that key |
| UserModel.IsActive | app/Models/User.php:158-161 | fails with not-found exactly when the pair has no row, even for a global admin; otherwise the `is_active` of a row of the pair |
| UserModel.HasPendingInvitations | app/Models/User.php:144-151 | true iff the user is not a global admin and some row of theirs has a null `completed_at` |
| UserModel.IsCompanyProfileReady | app/Models/User.php:222-225 | true iff some row of the pair has a non-null `completed_at` |
| UserModelLemmas.ReadyOrPending | app/Models/User.php:222-225 | a non-admin with a row in the company is either ready there or has a pending invitation |
| UserModel.HasMembershipOfType | app/Models/User.php:191-215 | true iff some row of the user is in an existing company of the given type, restricted to the given id when it is truthy |
| UserModel.IsAgencyUser | app/Models/User.php:191-199 | true iff some membership, of any role, is in an agency, restricted to the given company when the id is truthy |
| UserModel.IsDealershipUser | app/Models/User.php:207-215 | true iff some membership, of any role, is in a dealership, restricted to the given company when the id is truthy |
| UserModelLemmas.CompanyTypeProbes | app/Models/User.php:191-215 | with an id, agency user iff member of that company and it is an agency (the same for dealerships); never both kinds; id 0 filters nothing |
| UserModel.GetActiveCompany | app/Models/User.php:74-77 | returns a company iff an active id is given and the user is a member of that existing company, and then it is that company |
| UserModelLemmas.ActiveCompanyIsolation | app/Models/User.php:67-77 | a company that exists but has no row for the user is never the active company; `belongsToCompany` and `isCompanyUser` give false, `isCompanyAdmin` gives the global admin flag, and `isActive` fails for it |
| UserModel.UsersWithId | app/Models/User.php:119 | exactly the users of the table with the given id |
| UserModel.CompanyUsersOf | app/Models/User.php:119 | the users joined to the company through the pivot: every listed user has a row there, and every such user is listed |
| UserModel.CompanyUsers | app/Models/User.php:119-121 | a user is listed iff they are in the users table and have a membership row in the company |
| UserModel.GetListOfUsers | app/Models/User.php:116-124 | admin: all users, or exactly the given company's members, failing for an unknown company; non-admin: failure without an active company, the members of the active company when a company admin there, otherwise empty; a non-admin never sees a user outside the active company |
| UserModel.HasAccessToCampaign | app/Models/User.php:238-245 | true iff the campaign exists and a grant row links the user to it |
| UserModel.GrantedCampaigns | app/Models/User.php:227-236 | every listed campaign runs for the company and comes from a grant row of the user; every such granted campaign is listed |
| UserModel.GetCampaignsForCompany | app/Models/User.php:227-236 | exactly the existing granted campaigns whose agency or dealership is the company |
| UserModelLemmas.ListedCampaignsAreAccessible | app/Models/User.php:227-245 | every campaign listed for a company passes `HasAccessToCampaign` |
| UserModel.PossibleTimezones | app/Models/User.php:252-269 | thirteen distinct identifiers, each under `US/` |
| UserModel.IsProfileCompleted | app/Models/User.php:217-220 | completed iff the password is null or non-empty and the user name is null or not the placeholder `username` |
| UserModelLemmas.ProfileCompletion | app/Models/User.php:217-220 | the placeholder user name or an empty password means not completed; null columns pass the strict comparisons |
| UserModelLemmas.AdminShortCircuits | app/Models/User.php:163-166 | a global admin is company admin everywhere, has role `site_admin`, a null timezone, no pending invitations, and sees all users |
| UserModelLemmas.ScenarioOrdinaryUser | app/Models/User.php:74-215 | a `user`-role dealership member: company user but not company admin of it, dealership and not agency user, role `user` there, not found elsewhere, no foreign active company, an empty user list |
| UserModelLemmas.ScenarioGlobalAdmin | app/Models/User.php:116-184 | a global admin without rows: company admin of any id, role `site_admin`, all users listed, unknown company fails, not company user, no active company, `isActive` fails |
| UserStore.SetActive | app/Models/User.php:51-65 | fails with not-found exactly when the pair has no row; otherwise the table keeps its size and changes in no column but `is_active` |
| UserStore.SetActiveTouchesFirstRowOnly | app/Models/User.php:51-57 | only the first row of the pair changes, and it now carries the new flag |
| UserStore.InvitationIgnoresActiveFlag | app/Models/User.php:51-65 | after the update the pair lookups find the same row, differing at most in `is_active` |
| UserStore.LookupsIgnoreActiveFlag | app/Models/User.php:51-65 | role, timezone, company-admin, company-user and active-company answers are unchanged by the update |
| UserStore.CountsIgnoreActiveFlag | app/Models/User.php:51-65 | belonging, pending invitations and profile readiness are unchanged by the update |
| UserStore.IsActiveAfterSetActive | app/Models/User.php:158-161 | after the update `isActive` reads the new flag for the pair |
| UserStore.IsActiveElsewhereUnchanged | app/Models/User.php:51-65 | the update leaves `isActive` unchanged for every other (user, company) pair |
| UserStore.SetActiveKeepsWellFormed | app/Models/User.php:51-65 | the writes keep one row per pair, the roles and the keys, so the intended integrity survives them |
| UserStore.ActivateThenDeactivate | app/Models/User.php:51-65 | activate then deactivate keeps the table size and the pair's row count, leaves the pair inactive, and equals a lone deactivation |
| UserStore.Store.Activate | app/Models/User.php:51-57 | fails with not-found and changes nothing without a row; otherwise the table is the update of the first row, which now reads active |
| UserStore.Store.Deactivate | app/Models/User.php:59-65 | fails with not-found and changes nothing without a row; otherwise the table is the update of the first row, which now reads inactive, and no row is removed |
| Requests.CanCreateCampaign | app/Http/Requests/NewCampaignRequest.php:14-17 | true iff the user is a global admin or has a membership in an existing agency |
| Requests.CanStoreCannedResponse | app/Http/Requests/StoreCannedResponseRequest.php:14-17 | true iff the user is a global administrator |
| Requests.CampaignCreators | app/Http/Requests/NewCampaignRequest.php:14-17 | whoever may store canned responses may create campaigns; a non-admin may create one iff a member of some agency |

## Left out

- UserModel.GetListOfUsers: states which users appear, not their order or how often. The source returns one entry per pivot row, and SQL fixes no order.
- UserModel.CompanyUsers: states which users appear, not their order or how often.
- UserModel.CompanyUsersOf: states which users appear, not their order or how often.
- UserModel.GetCampaignsForCompany: states which campaigns appear, not their order or how often.
- UserModel.GrantedCampaigns: states which campaigns appear, not their order or how often.
- Row order: SQL gives no order without `ORDER BY`, so the model takes table order. "First" means first in that order.
- `Company::users` and the `Company` model are not part of this model. `$company->users` is taken to be the users joined through `company_user`.
- `get_active_company()` is not part of this model. It is a parameter that is either an int or null.
- A NULL `config` column is not modelled. The config is a map from strings to strings, so a JSON null `timezone` value is not represented either.
- `agencyCampaigns()` (app/Models/User.php:79-82) is a relation no modelled query uses.
- The `Impersonate`, `LogsActivity` and `Notifiable` traits: third-party behaviour that is not visible here.
- `$fillable` and `$hidden` (app/Models/User.php:26-49) govern mass assignment and serialisation, which no modelled query uses. The `$casts` entry (app/Models/User.php:38-40) casts the user's own `config` column, which no modelled query reads.
- `CompanyUser`'s `config` is assumed cast to an array. The pivot model is not part of this model; without that cast, `config['timezone']` would index a JSON string.
- `getPossibleTimezones()` (app/Models/User.php:247-250) only returns the static list, which `PossibleTimezones` models.
- The `rules()` of both requests: they are strings interpreted by the framework's validator, which is not part of this model.
- Persistence (`save()`, lazy relation loading), transactions and time-of-check/time-of-use effects: the store is one consistent snapshot per call.
- Routes, middleware, Blade views and the Vue icon registry: they hold no decision logic of the user model.
- Integer ids are unbounded integers. The database's integer width plays no part in any decision modelled.
