/** The `authorize()` decisions of the two form requests, composed from the user
    model's probes. */
module Requests {
  import opened Wrappers
  import opened Schema
  import opened UserModel

  /** `NewCampaignRequest::authorize`: a global administrator, or a member of any
      agency. */
  function CanCreateCampaign(db: Db, u: User): (r: bool)
    ensures r <==> IsAdmin(u) || MembershipOfTypeExists(db, u, Agency, None)
  {
    IsAdmin(u) || IsAgencyUser(db, u, None)
  }

  /** `StoreCannedResponseRequest::authorize`: global administrators only. */
  function CanStoreCannedResponse(u: User): (r: bool)
    ensures r <==> u.isAdmin
  {
    IsAdmin(u)
  }

  /** Whoever may store canned responses may create campaigns; an ordinary user
      may create one exactly when they are a member of some agency. */
  lemma CampaignCreators(db: Db, u: User)
    ensures CanStoreCannedResponse(u) ==> CanCreateCampaign(db, u)
    ensures !IsAdmin(u) ==>
      (CanCreateCampaign(db, u) <==> exists c :: IsMember(db, u, c) && db.companies[c].companyType == Agency)
  {
  }
}
