/**
 * The dashboard's purchase panel: the investment tiers and their packages,
 * the binary leg, the referrer field and its lock, the token approval, and the
 * guards of the purchase and claim handlers with the amounts they send.
 */
module Dashboard {
  import opened Wrappers
  import ProgressPackage

  datatype Tier = Tier(name: string, roi: string, packages: seq<nat>, description: string)

  const Tiers: seq<Tier> := [
    Tier("Bronze", "1% Daily ROI", [5, 10, 25], "Starter investment tier"),
    Tier("Silver", "1.5% Daily ROI", [50, 100, 250], "Enhanced returns tier"),
    Tier("Gold", "2% Daily ROI", [500, 1000, 2500], "Premium tier"),
    Tier("Platinum", "3% Daily ROI", [5000, 10000, 20000], "Exclusive tier"),
    Tier("Elite", "5% Daily ROI", [50000, 100000], "Ultimate tier")]

  /** The tiers' package lists one after the other. */
  function AllPackages(tiers: seq<Tier>): seq<nat> {
    if tiers == [] then [] else tiers[0].packages + AllPackages(tiers[1..])
  }

  /** Every tier offers at least one package. */
  lemma TiersNonEmpty()
    ensures forall k :: 0 <= k < |Tiers| ==> |Tiers[k].packages| > 0
  {
  }

  /**
   * Taken together the tiers list exactly the progress grid's package table, so
   * packages rise strictly within a tier and from one tier to the next.
   */
  lemma {:induction false} TiersCoverPackages()
    ensures AllPackages(Tiers) == ProgressPackage.Packages
    ensures forall i, j :: 0 <= i < j < |AllPackages(Tiers)| ==> AllPackages(Tiers)[i] < AllPackages(Tiers)[j]
  {
    var t := Tiers;
    assert t[1..][1..][1..][1..][1..] == [];
    assert AllPackages(t[1..][1..][1..][1..]) == [50000, 100000];
    assert AllPackages(t[1..][1..][1..]) == [5000, 10000, 20000, 50000, 100000];
    assert AllPackages(t[1..][1..]) == [500, 1000, 2500, 5000, 10000, 20000, 50000, 100000];
    assert AllPackages(t[1..]) == [50, 100, 250, 500, 1000, 2500, 5000, 10000, 20000, 50000, 100000];
    ProgressPackage.PackagesTable();
  }

  // -------------------------------------------------------------------- leg

  datatype Leg = Left | Right

  /** `leg === "left" ? 0 : 1`: the leg parameter of `purchase`. */
  function LegValue(l: Leg): (v: nat)
    ensures v <= 1
    ensures v == 0 <==> l == Left
  {
    if l == Left then 0 else 1
  }

  /** `legFromChain === 0 ? "left" : "right"`. */
  function LegFromChain(v: int): (l: Leg)
    ensures l == Left <==> v == 0
  {
    if v == 0 then Left else Right
  }

  /** Decoding an encoded leg gives it back, and encoding a decoded value gives 0 or 1. */
  lemma LegRoundTrip(l: Leg, v: int)
    ensures LegFromChain(LegValue(l)) == l
    ensures LegValue(LegFromChain(v)) == if v == 0 then 0 else 1
  {
  }

  // --------------------------------------------------------------- amounts

  const WeiPerToken: nat := ProgressPackage.WeiPerToken
  const ApprovalTokens: nat := 1000

  /** `BigInt(1000) * BigInt(1e18)`: the amount `approve` grants. */
  function ApprovalWei(): (w: nat)
    ensures w == ApprovalTokens * WeiPerToken
  {
    ProgressPackage.PackageWei(ApprovalTokens)
  }

  /** `Number(allowance) / 1e18 >= 1000`. */
  predicate AllowanceSufficient(allowance: nat) {
    allowance as real / WeiPerToken as real >= ApprovalTokens as real
  }

  /** The allowance is enough exactly when it covers the amount one approval grants. */
  lemma AllowanceThreshold(allowance: nat)
    ensures AllowanceSufficient(allowance) <==> allowance >= ApprovalWei()
  {
    var w := WeiPerToken as real;
    assert allowance as real / w * w == allowance as real;
  }

  /** `raw ? Number(raw) / 1e18 : 0`: an unread value and `0n` both show as 0. */
  function TokensOrZero(raw: Option<nat>): (t: real)
    ensures t >= 0.0
    ensures t == 0.0 <==> raw.None? || raw.value == 0
  {
    if raw.Some? && raw.value != 0 then raw.value as real / WeiPerToken as real else 0.0
  }

  /** `totalDirectClaimed + additionalClaimed`: the "Total Claimed" card. */
  function TotalClaimedSum(directClaimedRaw: Option<nat>, totalClaimedRaw: Option<nat>): real {
    TokensOrZero(directClaimedRaw) + TokensOrZero(totalClaimedRaw)
  }

  /** The card shows the two on-chain claimed amounts added in wei, converted to tokens. */
  lemma TotalClaimedAddsWei(direct: Option<nat>, additional: Option<nat>)
    ensures TotalClaimedSum(direct, additional)
      == (direct.GetOr(0) + additional.GetOr(0)) as real / WeiPerToken as real
  {
  }

  // ------------------------------------------------------------- handlers

  /** What `handlePurchasePackage` does: stop at the first failing guard, or send `purchase`. */
  datatype PurchaseOutcome =
    | NoWallet
    | NoReferrer
    | NotApproved
    | SendPurchase(packageWei: nat, referrer: string, legValue: nat)

  /** The purchase guards, in the source's order: wallet, referrer, approval. */
  function PurchaseCheck(connected: bool, referrer: string, approved: bool, pkg: nat, leg: Leg): (o: PurchaseOutcome)
    ensures !connected ==> o == NoWallet
    ensures connected && referrer == "" ==> o == NoReferrer
    ensures connected && referrer != "" && !approved ==> o == NotApproved
    ensures o.SendPurchase? <==> connected && referrer != "" && approved
    ensures o.SendPurchase? ==>
      o.packageWei / WeiPerToken == pkg && o.packageWei % WeiPerToken == 0
      && o.referrer == referrer && o.legValue == LegValue(leg)
  {
    if !connected then NoWallet
    else if referrer == "" then NoReferrer
    else if !approved then NotApproved
    else SendPurchase(ProgressPackage.PackageWei(pkg), referrer, LegValue(leg))
  }

  /** What `handleClaimPendingIncome` does. */
  datatype ClaimOutcome = ClaimNoWallet | NothingToClaim | SendClaim(claimedAmount: real)

  /** The ROI claim is rejected without a wallet and when the pending income shows as 0. */
  function ClaimPendingCheck(connected: bool, pendingRaw: Option<nat>): (o: ClaimOutcome)
    ensures !connected <==> o == ClaimNoWallet
    ensures o.SendClaim? <==> connected && pendingRaw.Some? && pendingRaw.value > 0
    ensures o.SendClaim? ==> o.claimedAmount > 0.0 && o.claimedAmount == TokensOrZero(pendingRaw)
  {
    var pending := TokensOrZero(pendingRaw);
    if !connected then ClaimNoWallet
    else if pending <= 0.0 then NothingToClaim
    else SendClaim(pending)
  }

  /** `handleClaimDirectIncome` checks only the wallet; the backend is told the direct income. */
  function ClaimDirectCheck(connected: bool, directIncomeRaw: Option<nat>): (o: ClaimOutcome)
    ensures o != NothingToClaim
    ensures !connected <==> o == ClaimNoWallet
    ensures connected ==> o == SendClaim(TokensOrZero(directIncomeRaw))
  {
    if !connected then ClaimNoWallet else SendClaim(TokensOrZero(directIncomeRaw))
  }

  const ZeroAddress := "0x0000000000000000000000000000000000000000"

  /** `getUserDetails`'s result: the referrer, the leg code and the join time in seconds. */
  datatype UserDetails = UserDetails(referrer: string, legFromChain: int, joinTime: int)

  // ----------------------------------------------------------------- panel

  /** The purchase panel's state. */
  class PurchaseForm {
    var connected: bool
    var selectedTier: nat
    var selectedPackage: nat
    var referrerAddress: string
    var leg: Leg
    var isReferrerLocked: bool
    var joinTime: Option<int>
    var purchasedPackages: set<nat>
    var isLoadingUserDetails: bool
    var isApproving: bool
    var isApproved: bool
    var isPurchasing: bool

    /** The selected package is always one the selected tier offers. */
    ghost predicate Valid()
      reads this
    {
      selectedTier < |Tiers| && selectedPackage in Tiers[selectedTier].packages
    }

    /** The first render: the Bronze tier with its first package, the left leg, nothing approved. */
    constructor(connected: bool)
      ensures Valid()
      ensures this.connected == connected
      ensures selectedTier == 0 && selectedPackage == 5 && referrerAddress == "" && leg == Left
      ensures !isReferrerLocked && joinTime == None && purchasedPackages == {} && isLoadingUserDetails
      ensures !isApproving && !isApproved && !isPurchasing
    {
      this.connected := connected;
      selectedTier := 0;
      selectedPackage := Tiers[0].packages[0];
      referrerAddress := "";
      leg := Left;
      isReferrerLocked := false;
      joinTime := None;
      purchasedPackages := {};
      isLoadingUserDetails := true;
      isApproving := false;
      isApproved := false;
      isPurchasing := false;
    }

    /** A click on tier card `i`: select it and its first package. */
    method SelectTier(i: nat)
      requires Valid() && i < |Tiers|
      modifies this
      ensures Valid()
      ensures selectedTier == i && selectedPackage == Tiers[i].packages[0]
      ensures referrerAddress == old(referrerAddress) && leg == old(leg) && isReferrerLocked == old(isReferrerLocked)
      ensures isApproved == old(isApproved) && isApproving == old(isApproving) && isPurchasing == old(isPurchasing)
      ensures connected == old(connected) && joinTime == old(joinTime) && purchasedPackages == old(purchasedPackages)
      ensures isLoadingUserDetails == old(isLoadingUserDetails)
    {
      TiersNonEmpty();
      selectedTier := i;
      selectedPackage := Tiers[i].packages[0];
    }

    /** A click on one of the selected tier's package buttons; a purchased package is not taken. */
    method ClickPackage(pkg: nat)
      requires Valid() && pkg in Tiers[selectedTier].packages
      modifies this
      ensures Valid()
      ensures selectedPackage == if pkg in purchasedPackages then old(selectedPackage) else pkg
      ensures selectedTier == old(selectedTier)
      ensures referrerAddress == old(referrerAddress) && leg == old(leg) && isReferrerLocked == old(isReferrerLocked)
      ensures isApproved == old(isApproved) && isApproving == old(isApproving) && isPurchasing == old(isPurchasing)
      ensures connected == old(connected) && joinTime == old(joinTime) && purchasedPackages == old(purchasedPackages)
      ensures isLoadingUserDetails == old(isLoadingUserDetails)
    {
      if pkg !in purchasedPackages {
        selectedPackage := pkg;
      }
    }

    method ChooseLeg(l: Leg)
      requires Valid()
      modifies this
      ensures Valid()
      ensures leg == l
      ensures selectedTier == old(selectedTier) && selectedPackage == old(selectedPackage)
      ensures referrerAddress == old(referrerAddress) && isReferrerLocked == old(isReferrerLocked)
      ensures isApproved == old(isApproved) && isApproving == old(isApproving) && isPurchasing == old(isPurchasing)
      ensures connected == old(connected) && joinTime == old(joinTime) && purchasedPackages == old(purchasedPackages)
      ensures isLoadingUserDetails == old(isLoadingUserDetails)
    {
      leg := l;
    }

    /** Typing in the referrer field; ignored while the referrer is locked. */
    method EditReferrer(text: string)
      requires Valid()
      modifies this
      ensures Valid()
      ensures referrerAddress == if old(isReferrerLocked) then old(referrerAddress) else text
      ensures selectedTier == old(selectedTier) && selectedPackage == old(selectedPackage)
      ensures leg == old(leg) && isReferrerLocked == old(isReferrerLocked)
      ensures isApproved == old(isApproved) && isApproving == old(isApproving) && isPurchasing == old(isPurchasing)
      ensures connected == old(connected) && joinTime == old(joinTime) && purchasedPackages == old(purchasedPackages)
      ensures isLoadingUserDetails == old(isLoadingUserDetails)
    {
      if !isReferrerLocked {
        referrerAddress := text;
      }
    }

    /**
     * The user-details effect. A referrer other than the zero address fills the
     * field, locks it and takes the on-chain leg; a positive join time is kept.
     */
    method ApplyUserDetails(details: UserDetails)
      requires Valid()
      modifies this
      ensures Valid()
      ensures var known := connected && details.referrer != "" && details.referrer != ZeroAddress;
        && (known ==> referrerAddress == details.referrer && isReferrerLocked && leg == LegFromChain(details.legFromChain))
        && (!known ==> referrerAddress == old(referrerAddress) && isReferrerLocked == old(isReferrerLocked) && leg == old(leg))
      ensures joinTime == if connected && details.joinTime > 0 then Some(details.joinTime) else old(joinTime)
      ensures isLoadingUserDetails == (old(isLoadingUserDetails) && !connected)
      ensures selectedTier == old(selectedTier) && selectedPackage == old(selectedPackage)
      ensures isApproved == old(isApproved) && isApproving == old(isApproving) && isPurchasing == old(isPurchasing)
      ensures connected == old(connected) && purchasedPackages == old(purchasedPackages)
    {
      if connected {
        if details.referrer != "" && details.referrer != ZeroAddress {
          referrerAddress := details.referrer;
          isReferrerLocked := true;
          leg := LegFromChain(details.legFromChain);
        }
        if details.joinTime > 0 {
          joinTime := Some(details.joinTime);
        }
        isLoadingUserDetails := false;
      }
    }

    /** The allowance effect: an allowance of at least 1000 tokens approves; nothing un-approves. */
    method ApplyAllowance(allowance: nat)
      requires Valid()
      modifies this
      ensures Valid()
      ensures isApproved == (old(isApproved) || allowance >= ApprovalWei())
      ensures selectedTier == old(selectedTier) && selectedPackage == old(selectedPackage)
      ensures referrerAddress == old(referrerAddress) && leg == old(leg) && isReferrerLocked == old(isReferrerLocked)
      ensures isApproving == old(isApproving) && isPurchasing == old(isPurchasing)
      ensures connected == old(connected) && joinTime == old(joinTime) && purchasedPackages == old(purchasedPackages)
      ensures isLoadingUserDetails == old(isLoadingUserDetails)
    {
      AllowanceThreshold(allowance);
      if AllowanceSufficient(allowance) {
        isApproved := true;
      }
    }

    /** `handleApproveUSDT`: without a wallet nothing is sent; otherwise `approve` is sent for 1000 tokens. */
    method Approve() returns (amountWei: Option<nat>)
      requires Valid()
      modifies this
      ensures Valid()
      ensures !connected ==> amountWei == None && isApproving == old(isApproving)
      ensures connected ==> amountWei == Some(ApprovalTokens * WeiPerToken) && isApproving
      ensures isApproved == old(isApproved) && isPurchasing == old(isPurchasing)
      ensures selectedTier == old(selectedTier) && selectedPackage == old(selectedPackage)
      ensures referrerAddress == old(referrerAddress) && leg == old(leg) && isReferrerLocked == old(isReferrerLocked)
      ensures connected == old(connected) && joinTime == old(joinTime) && purchasedPackages == old(purchasedPackages)
      ensures isLoadingUserDetails == old(isLoadingUserDetails)
    {
      if !connected {
        return None;
      }
      isApproving := true;
      amountWei := Some(ApprovalWei());
    }

    /** The transaction-success effect; the hook's flag is shared by every transaction the page sends. */
    method OnTxSuccess()
      requires Valid()
      modifies this
      ensures Valid()
      ensures isApproved && !isApproving
      ensures isPurchasing == old(isPurchasing)
      ensures selectedTier == old(selectedTier) && selectedPackage == old(selectedPackage)
      ensures referrerAddress == old(referrerAddress) && leg == old(leg) && isReferrerLocked == old(isReferrerLocked)
      ensures connected == old(connected) && joinTime == old(joinTime) && purchasedPackages == old(purchasedPackages)
      ensures isLoadingUserDetails == old(isLoadingUserDetails)
    {
      isApproved := true;
      isApproving := false;
    }

    /** The transaction-error effect. */
    method OnTxError()
      requires Valid()
      modifies this
      ensures Valid()
      ensures !isApproving
      ensures isApproved == old(isApproved) && isPurchasing == old(isPurchasing)
      ensures selectedTier == old(selectedTier) && selectedPackage == old(selectedPackage)
      ensures referrerAddress == old(referrerAddress) && leg == old(leg) && isReferrerLocked == old(isReferrerLocked)
      ensures connected == old(connected) && joinTime == old(joinTime) && purchasedPackages == old(purchasedPackages)
      ensures isLoadingUserDetails == old(isLoadingUserDetails)
    {
      isApproving := false;
    }

    /** `handlePurchasePackage`: the guards in order; only when all pass is the purchase sent and `isPurchasing` set. */
    method PurchasePackage() returns (o: PurchaseOutcome)
      requires Valid()
      modifies this
      ensures Valid()
      ensures o == PurchaseCheck(connected, referrerAddress, isApproved, selectedPackage, leg)
      ensures isPurchasing == (o.SendPurchase? || old(isPurchasing))
      ensures isApproved == old(isApproved) && isApproving == old(isApproving)
      ensures selectedTier == old(selectedTier) && selectedPackage == old(selectedPackage)
      ensures referrerAddress == old(referrerAddress) && leg == old(leg) && isReferrerLocked == old(isReferrerLocked)
      ensures connected == old(connected) && joinTime == old(joinTime) && purchasedPackages == old(purchasedPackages)
      ensures isLoadingUserDetails == old(isLoadingUserDetails)
    {
      o := PurchaseCheck(connected, referrerAddress, isApproved, selectedPackage, leg);
      if o.SendPurchase? {
        isPurchasing := true;
      }
    }

    /**
     * The purchase transaction settles. After an on-chain success that the
     * backend records, the referrer field is cleared (even a locked one);
     * in every case `isPurchasing` ends.
     */
    method OnPurchaseSettled(onChainSuccess: bool, backendRecorded: bool)
      requires Valid()
      modifies this
      ensures Valid()
      ensures !isPurchasing
      ensures referrerAddress == if onChainSuccess && backendRecorded then "" else old(referrerAddress)
      ensures isApproved == old(isApproved) && isApproving == old(isApproving)
      ensures selectedTier == old(selectedTier) && selectedPackage == old(selectedPackage)
      ensures leg == old(leg) && isReferrerLocked == old(isReferrerLocked)
      ensures connected == old(connected) && joinTime == old(joinTime) && purchasedPackages == old(purchasedPackages)
      ensures isLoadingUserDetails == old(isLoadingUserDetails)
    {
      if onChainSuccess && backendRecorded {
        referrerAddress := "";
      }
      isPurchasing := false;
    }
  }

  /**
   * Once the referrer is locked, a purchase that settles successfully clears
   * it for good: the field then ignores typing, so the next purchase stops at
   * "no referrer" until the user details are read again.
   */
  method LockedReferrerStaysCleared(f: PurchaseForm, typed: string) returns (o: PurchaseOutcome)
    requires f.Valid() && f.connected && f.isReferrerLocked
    modifies f
    ensures f.Valid()
    ensures f.referrerAddress == "" && f.isReferrerLocked
    ensures o == NoReferrer
  {
    f.OnPurchaseSettled(true, true);
    f.EditReferrer(typed);
    o := f.PurchasePackage();
  }
}
