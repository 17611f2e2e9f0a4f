/** The two writes of the `User` model, `activate` and `deactivate`: each fetches the
    first company_user row of the pair with `firstOrFail`, assigns `is_active` and
    saves that one row. */
module UserStore {
  import opened Wrappers
  import opened Schema
  import opened UserModel
  import Query

  /** Two tables that differ at most in the `is_active` column. */
  ghost predicate SameExceptActive(rows: seq<CompanyUser>, rows': seq<CompanyUser>) {
    |rows'| == |rows| && forall i :: 0 <= i < |rows| ==> rows'[i] == rows[i].(isActive := rows'[i].isActive)
  }

  /** The company_user table after setting `is_active` to `flag` on the first row of
      the pair, or the not-found failure when the pair has no row. */
  function SetActive(rows: seq<CompanyUser>, userId: int, companyId: int, flag: bool): (r: Result<seq<CompanyUser>, Error>)
    ensures r.Failure? <==> !HasRow(rows, userId, companyId)
    ensures r.Failure? ==> r.error == ModelNotFound
    ensures r.Success? ==> SameExceptActive(rows, r.value)
  {
    match Query.FirstIndex(rows, MembershipOf(userId, companyId))
    case None => Failure(ModelNotFound)
    case Some(k) => Success(rows[k := rows[k].(isActive := flag)])
  }

  /** Only the first row of the pair changes, and it now carries `flag`. */
  lemma SetActiveTouchesFirstRowOnly(rows: seq<CompanyUser>, userId: int, companyId: int, flag: bool)
    requires HasRow(rows, userId, companyId)
    ensures var k := Query.FirstIndex(rows, MembershipOf(userId, companyId)).value;
      var rows' := SetActive(rows, userId, companyId, flag).value;
      && IsMembership(rows[k], userId, companyId)
      && (forall j :: 0 <= j < k ==> !IsMembership(rows[j], userId, companyId))
      && rows'[k] == rows[k].(isActive := flag)
      && (forall i :: 0 <= i < |rows| && i != k ==> rows'[i] == rows[i])
  {
  }

  /** The first row of a pair is found at the same place in two tables that differ
      only in `is_active`, and differs at most there. */
  lemma InvitationIgnoresActiveFlag(db: Db, rows': seq<CompanyUser>, u: User, companyId: int)
    requires SameExceptActive(db.memberships, rows')
    ensures var a, b := Invitation(db.(memberships := rows'), u, companyId), Invitation(db, u, companyId);
      && a.Some? == b.Some?
      && (a.Some? ==> a.value == b.value.(isActive := a.value.isActive))
  {
    var p := MembershipOf(u.id, companyId);
    Query.FirstIndexAgrees(db.memberships, rows', p);
  }

  /** Lookups that never look at `is_active` give the same answers on two tables
      that differ only there. */
  lemma LookupsIgnoreActiveFlag(db: Db, rows': seq<CompanyUser>, u: User, companyId: int)
    requires SameExceptActive(db.memberships, rows')
    ensures GetRole(db.(memberships := rows'), u, companyId) == GetRole(db, u, companyId)
    ensures GetTimezone(db.(memberships := rows'), u, companyId) == GetTimezone(db, u, companyId)
    ensures IsCompanyAdmin(db.(memberships := rows'), u, companyId) == IsCompanyAdmin(db, u, companyId)
    ensures IsCompanyUser(db.(memberships := rows'), u, companyId) == IsCompanyUser(db, u, companyId)
    ensures GetActiveCompany(db.(memberships := rows'), u, Some(companyId)) == GetActiveCompany(db, u, Some(companyId))
  {
    InvitationIgnoresActiveFlag(db, rows', u, companyId);
  }

  /** Counting queries that never look at `is_active` give the same answers on two
      tables that differ only there. */
  lemma CountsIgnoreActiveFlag(db: Db, rows': seq<CompanyUser>, u: User, companyId: int)
    requires SameExceptActive(db.memberships, rows')
    ensures BelongsToCompany(db.(memberships := rows'), u, companyId) == BelongsToCompany(db, u, companyId)
    ensures HasPendingInvitations(db.(memberships := rows'), u) == HasPendingInvitations(db, u)
    ensures IsCompanyProfileReady(db.(memberships := rows'), u, companyId) == IsCompanyProfileReady(db, u, companyId)
  {
    Query.CountAgrees(db.memberships, rows', MembershipOf(u.id, companyId));
    Query.CountAgrees(db.memberships, rows', PendingOf(u.id));
    Query.CountAgrees(db.memberships, rows', CompletedOf(u.id, companyId));
  }

  /** After the update `isActive` reads back `flag` for the pair. */
  lemma IsActiveAfterSetActive(db: Db, u: User, companyId: int, flag: bool)
    requires HasRow(db.memberships, u.id, companyId)
    ensures IsActive(db.(memberships := SetActive(db.memberships, u.id, companyId, flag).value), u, companyId)
      == Success(flag)
  {
    var rows := db.memberships;
    var rows' := SetActive(rows, u.id, companyId, flag).value;
    SetActiveTouchesFirstRowOnly(rows, u.id, companyId, flag);
    Query.FirstIndexAgrees(rows, rows', MembershipOf(u.id, companyId));
  }

  /** The update leaves `isActive` unchanged for every other pair. */
  lemma IsActiveElsewhereUnchanged(db: Db, u: User, companyId: int, flag: bool, other: User, otherCompany: int)
    requires HasRow(db.memberships, u.id, companyId)
    requires other.id != u.id || otherCompany != companyId
    ensures var db' := db.(memberships := SetActive(db.memberships, u.id, companyId, flag).value);
      IsActive(db', other, otherCompany) == IsActive(db, other, otherCompany)
  {
    var rows := db.memberships;
    var rows' := SetActive(rows, u.id, companyId, flag).value;
    var db' := db.(memberships := rows');
    SetActiveTouchesFirstRowOnly(rows, u.id, companyId, flag);
    Query.FirstIndexAgrees(rows, rows', MembershipOf(other.id, otherCompany));
    var k := Query.FirstIndex(rows, MembershipOf(u.id, companyId)).value;
    var j := Query.FirstIndex(rows, MembershipOf(other.id, otherCompany));
    if j.Some? {
      assert j.value != k;
      assert Invitation(db', other, otherCompany) == Some(rows[j.value]);
    }
  }

  /** The writes keep the schema's integrity: still one row per pair, roles and
      keys untouched. */
  lemma SetActiveKeepsWellFormed(db: Db, userId: int, companyId: int, flag: bool)
    requires WellFormed(db) && SetActive(db.memberships, userId, companyId, flag).Success?
    ensures WellFormed(db.(memberships := SetActive(db.memberships, userId, companyId, flag).value))
  {
  }

  /** Activating and then deactivating the same pair leaves the table the same size,
      the pair's rows the same in number, and the pair inactive: exactly the table a
      lone deactivation gives. */
  lemma ActivateThenDeactivate(db: Db, u: User, companyId: int)
    requires HasRow(db.memberships, u.id, companyId)
    ensures SetActive(db.memberships, u.id, companyId, true).Success?
    ensures var once := SetActive(db.memberships, u.id, companyId, true).value;
      var twice := SetActive(once, u.id, companyId, false);
      && twice.Success?
      && |twice.value| == |db.memberships|
      && Query.Count(twice.value, MembershipOf(u.id, companyId)) == Query.Count(db.memberships, MembershipOf(u.id, companyId))
      && IsActive(db.(memberships := twice.value), u, companyId) == Success(false)
      && twice == SetActive(db.memberships, u.id, companyId, false)
  {
    var rows := db.memberships;
    var p := MembershipOf(u.id, companyId);
    var k := Query.FirstIndex(rows, p).value;
    var once := rows[k := rows[k].(isActive := true)];
    assert SetActive(rows, u.id, companyId, true) == Success(once);
    Query.FirstIndexAgrees(rows, once, p);
    var twice := once[k := once[k].(isActive := false)];
    assert SetActive(once, u.id, companyId, false) == Success(twice);
    assert twice == rows[k := rows[k].(isActive := false)];
    Query.CountAgrees(rows, twice, p);
    IsActiveAfterSetActive(db, u, companyId, false);
  }

  /** The in-memory store: the five tables, each a field the writes reassign. */
  class Store {
    var users: seq<User>
    var companies: map<int, Company>
    var memberships: seq<CompanyUser>
    var campaigns: map<int, Campaign>
    var grants: seq<CampaignUser>

    constructor (db: Db)
      ensures Snapshot() == db
    {
      users, companies, memberships, campaigns, grants :=
        db.users, db.companies, db.memberships, db.campaigns, db.grants;
    }

    /** The tables as the read queries see them. */
    function Snapshot(): Db
      reads this
    {
      Db(users, companies, memberships, campaigns, grants)
    }

    /** `activate($companyId)`: the first row of the pair becomes active; without a
        row it fails and nothing changes. */
    method Activate(u: User, companyId: int) returns (outcome: Outcome<Error>)
      modifies this`memberships
      ensures outcome.Fail? <==> !HasRow(old(memberships), u.id, companyId)
      ensures outcome.Fail? ==> outcome.error == ModelNotFound && memberships == old(memberships)
      ensures outcome.Pass? ==> Success(memberships) == SetActive(old(memberships), u.id, companyId, true)
      ensures outcome.Pass? ==> IsActive(Snapshot(), u, companyId) == Success(true)
    {
      var k := Query.FirstIndex(memberships, MembershipOf(u.id, companyId));
      if k.None? {
        return Fail(ModelNotFound);
      }
      var row := memberships[k.value];
      row := row.(isActive := true);
      memberships := memberships[k.value := row];
      outcome := Pass;
      IsActiveAfterSetActive(old(Snapshot()), u, companyId, true);
    }

    /** `deactivate($companyId)`: the first row of the pair becomes inactive; without
        a row it fails and nothing changes. The row is never removed. */
    method Deactivate(u: User, companyId: int) returns (outcome: Outcome<Error>)
      modifies this`memberships
      ensures outcome.Fail? <==> !HasRow(old(memberships), u.id, companyId)
      ensures outcome.Fail? ==> outcome.error == ModelNotFound && memberships == old(memberships)
      ensures outcome.Pass? ==> Success(memberships) == SetActive(old(memberships), u.id, companyId, false)
      ensures outcome.Pass? ==> IsActive(Snapshot(), u, companyId) == Success(false)
    {
      var k := Query.FirstIndex(memberships, MembershipOf(u.id, companyId));
      if k.None? {
        return Fail(ModelNotFound);
      }
      var row := memberships[k.value];
      row := row.(isActive := false);
      memberships := memberships[k.value := row];
      outcome := Pass;
      IsActiveAfterSetActive(old(Snapshot()), u, companyId, false);
    }
  }
}
