/** The proof-of-existence pallet: a registry from claimed content to the
    account that claimed it, with create and revoke calls and their dispatch. */
module ProofOfExistence {
  import opened Support

  const ALREADY_CLAIMED: string := "this content is already claimed"
  const CLAIM_NOT_FOUND: string := "claim does not exist"
  const NOT_OWNER: string := "this content belongs someone else"

  /** The calls this pallet can dispatch; the caller travels beside the call. */
  datatype Call<Content> = CreateClaim(claim: Content) | RevokeClaim(claim: Content)

  /** The owner of a claim in a registry map, if any. */
  function OwnerOf<Content, AccountId>(claims: map<Content, AccountId>, claim: Content): Option<AccountId>
  {
    if claim in claims then Some(claims[claim]) else None
  }

  /** What `create_claim` does to the registry, as a value. */
  function ApplyCreateClaim<Content(!new), AccountId>(claims: map<Content, AccountId>, caller: AccountId, claim: Content)
    : (t: Transition<map<Content, AccountId>>)
    ensures t.result == Err(ALREADY_CLAIMED) <==> claim in claims
    ensures t.result == Ok <==> claim !in claims
    ensures t.result.Err? ==> t.post == claims
    ensures t.result.Ok? ==> OwnerOf(t.post, claim) == Some(caller) && t.post.Keys == claims.Keys + {claim}
    ensures forall c :: c != claim ==> OwnerOf(t.post, c) == OwnerOf(claims, c)
  {
    if claim in claims then
      Transition(Err(ALREADY_CLAIMED), claims)
    else
      Transition(Ok, claims[claim := caller])
  }

  /** What `revoke_claim` does to the registry, as a value: existence is
      checked before ownership. */
  function ApplyRevokeClaim<Content(!new), AccountId(==)>(claims: map<Content, AccountId>, caller: AccountId, claim: Content)
    : (t: Transition<map<Content, AccountId>>)
    ensures t.result == Err(CLAIM_NOT_FOUND) <==> claim !in claims
    ensures t.result == Err(NOT_OWNER) <==> claim in claims && claims[claim] != caller
    ensures t.result == Ok <==> OwnerOf(claims, claim) == Some(caller)
    ensures t.result.Err? ==> t.post == claims
    ensures t.result.Ok? ==> OwnerOf(t.post, claim) == None && t.post.Keys == claims.Keys - {claim}
    ensures forall c :: c != claim ==> OwnerOf(t.post, c) == OwnerOf(claims, c)
  {
    match OwnerOf(claims, claim)
    case None => Transition(Err(CLAIM_NOT_FOUND), claims)
    case Some(owner) =>
      if caller != owner then
        Transition(Err(NOT_OWNER), claims)
      else
        Transition(Ok, claims - {claim})
  }

  /** Claiming fresh content and then revoking it as the same caller restores
      the registry exactly. */
  lemma CreateThenRevokeRestores<Content(!new), AccountId>(claims: map<Content, AccountId>, caller: AccountId, claim: Content)
    requires claim !in claims
    ensures ApplyCreateClaim(claims, caller, claim).result == Ok
    ensures ApplyRevokeClaim(ApplyCreateClaim(claims, caller, claim).post, caller, claim) == Transition(Ok, claims)
  {
    assert claims[claim := caller] - {claim} == claims;
  }

  /** No call reassigns a claim: content that has an owner before and after a
      call has the same owner. */
  lemma OwnerNeverReassigned<Content(!new), AccountId>(claims: map<Content, AccountId>, caller: AccountId, claim: Content, c: Content)
    requires c in claims
    ensures var post := ApplyCreateClaim(claims, caller, claim).post;
            c in post && post[c] == claims[c]
    ensures var post := ApplyRevokeClaim(claims, caller, claim).post;
            c in post ==> post[c] == claims[c]
  {
  }

  class Pallet<AccountId(==), Content(==, !new)> {
    var claims: map<Content, AccountId>

    constructor ()
      ensures claims == map[]
      ensures forall c :: GetClaim(c) == None
    {
      claims := map[];
    }

    /** The owner of `claim`, if it is claimed. */
    function GetClaim(claim: Content): (owner: Option<AccountId>)
      reads this
      ensures owner.Some? <==> claim in claims
      ensures owner.Some? ==> owner.value == claims[claim]
    {
      OwnerOf(claims, claim)
    }

    method CreateClaim(caller: AccountId, claim: Content) returns (r: DispatchResult)
      modifies this
      ensures Transition(r, claims) == ApplyCreateClaim(old(claims), caller, claim)
    {
      if claim in claims {
        return Err(ALREADY_CLAIMED);
      }
      claims := claims[claim := caller];
      r := Ok;
    }

    method RevokeClaim(caller: AccountId, claim: Content) returns (r: DispatchResult)
      modifies this
      ensures Transition(r, claims) == ApplyRevokeClaim(old(claims), caller, claim)
    {
      var owner := GetClaim(claim);
      if owner.None? {
        return Err(CLAIM_NOT_FOUND);
      }
      if caller != owner.value {
        return Err(NOT_OWNER);
      }
      claims := claims - {claim};
      r := Ok;
    }

    /** Routes each call to the method of the same name with the caller
        forwarded, and returns that method's result unchanged. */
    method Dispatch(caller: AccountId, call: Call<Content>) returns (r: DispatchResult)
      modifies this
      ensures call.CreateClaim? ==> Transition(r, claims) == ApplyCreateClaim(old(claims), caller, call.claim)
      ensures call.RevokeClaim? ==> Transition(r, claims) == ApplyRevokeClaim(old(claims), caller, call.claim)
    {
      match call
      case CreateClaim(claim) =>
        r := CreateClaim(caller, claim);
      case RevokeClaim(claim) =>
        r := RevokeClaim(caller, claim);
    }
  }
}
