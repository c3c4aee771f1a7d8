/** The license store: the tier a user holds, the license fields the setters
    and `clearLicense` update in place, and the tier-to-feature permission
    table behind `canUseFeature`. Dates are kept as millisecond timestamps. */
module License {
  import opened Text

  datatype Tier = FREE | PRO | STUDIO

  datatype Feature =
    | AiAutofill
    | RichMetadata
    | AllFormats
    | AllBitrates
    | NoWatermark
    | BatchProcessing
    | ChapterEditor
    | AudioEnhancement
    | SmartArtwork
    | CustomCover
    | SaveProject

  /** The tiers that unlock each premium feature: every feature is open to
      STUDIO, none to FREE, and all but batch processing to PRO. */
  function Requirements(f: Feature): (ts: seq<Tier>)
    ensures STUDIO in ts
    ensures FREE !in ts
    ensures PRO in ts <==> f != BatchProcessing
  {
    match f
    case BatchProcessing => [STUDIO]
    case _ => [PRO, STUDIO]
  }

  /** Whether tier `t` may use feature `f`. */
  predicate Allows(t: Tier, f: Feature)
  {
    t in Requirements(f)
  }

  /** The tiers ordered by what they buy. */
  function Rank(t: Tier): (n: nat)
    ensures n <= 2
  {
    match t
    case FREE => 0
    case PRO => 1
    case STUDIO => 2
  }

  /** Moving up a tier never takes a feature away. */
  lemma AllowsMonotone(t: Tier, u: Tier, f: Feature)
    requires Rank(t) <= Rank(u) && Allows(t, f)
    ensures Allows(u, f)
  {
  }

  class LicenseStore {
    var tier: Tier
    var licenseKey: Option<string>
    var expiresAt: Option<int>
    var machineId: Option<string>
    var isValidating: bool
    var lastValidated: Option<int>

    /** The initial state: FREE, no license fields, not validating. */
    constructor()
      ensures tier == FREE && licenseKey == None && expiresAt == None
      ensures machineId == None && !isValidating && lastValidated == None
    {
      tier := FREE;
      licenseKey := None;
      expiresAt := None;
      machineId := None;
      isValidating := false;
      lastValidated := None;
    }

    method SetTier(t: Tier)
      modifies this
      ensures tier == t
      ensures licenseKey == old(licenseKey) && expiresAt == old(expiresAt)
      ensures machineId == old(machineId) && isValidating == old(isValidating)
      ensures lastValidated == old(lastValidated)
    {
      tier := t;
    }

    method SetLicenseKey(key: Option<string>)
      modifies this
      ensures licenseKey == key
      ensures tier == old(tier) && expiresAt == old(expiresAt)
      ensures machineId == old(machineId) && isValidating == old(isValidating)
      ensures lastValidated == old(lastValidated)
    {
      licenseKey := key;
    }

    method SetMachineId(id: string)
      modifies this
      ensures machineId == Some(id)
      ensures tier == old(tier) && licenseKey == old(licenseKey)
      ensures expiresAt == old(expiresAt) && isValidating == old(isValidating)
      ensures lastValidated == old(lastValidated)
    {
      machineId := Some(id);
    }

    method SetValidating(validating: bool)
      modifies this
      ensures isValidating == validating
      ensures tier == old(tier) && licenseKey == old(licenseKey)
      ensures expiresAt == old(expiresAt) && machineId == old(machineId)
      ensures lastValidated == old(lastValidated)
    {
      isValidating := validating;
    }

    /** Back to FREE with the license fields cleared; the machine id and the
        validation flag are kept. */
    method ClearLicense()
      modifies this
      ensures tier == FREE && licenseKey == None && expiresAt == None && lastValidated == None
      ensures machineId == old(machineId) && isValidating == old(isValidating)
      ensures forall f :: !CanUseFeature(f)
    {
      tier := FREE;
      licenseKey := None;
      expiresAt := None;
      lastValidated := None;
    }

    /** A paid tier: one that opens the premium features. */
    predicate IsPro()
      reads this
      ensures IsPro() <==> tier != FREE
      ensures IsPro() <==> CanUseFeature(AiAutofill)
    {
      tier == PRO || tier == STUDIO
    }

    /** The top tier: the only one that opens batch processing. */
    predicate IsStudio()
      reads this
      ensures IsStudio() <==> CanUseFeature(BatchProcessing)
      ensures IsStudio() ==> IsPro()
    {
      tier == STUDIO
    }

    /** Whether the current tier is one the feature's table entry lists. */
    predicate CanUseFeature(f: Feature)
      reads this
      ensures CanUseFeature(f) <==> tier == STUDIO || (tier == PRO && f != BatchProcessing)
    {
      Allows(tier, f)
    }
  }

  /** The upgrade prompt: shown exactly when the store's tier cannot use the
      feature. */
  predicate RequiresPro(s: LicenseStore, f: Feature)
    reads s
    ensures RequiresPro(s, f) <==> s.tier == FREE || (s.tier == PRO && f == BatchProcessing)
  {
    !s.CanUseFeature(f)
  }
}
