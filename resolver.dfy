/**
 * The preference resolver: the default region chosen at boot and the default
 * realm chosen when a realm list arrives. Each takes the first candidate whose
 * key matches the stored preference and falls back to the first candidate.
 */
module Resolver {
  import opened Wrappers
  import opened Keyed
  import opened MainTypes

  /**
   * The region made current by a boot payload: the first region named as the
   * preferred region, or the first region when there is no preference or no
   * region has that name.
   */
  function ResolveRegion(regions: seq<Region>, prefs: Option<Preference>): (r: Region)
    requires |regions| > 0
    ensures r in regions
    ensures prefs.None? ==> r == regions[0]
    ensures prefs.Some? ==>
      forall i :: FirstWithKey(regions, RegionName, prefs.value.currentRegion, i) ==> r == regions[i]
    ensures prefs.Some? && prefs.value.currentRegion !in KeysOf(regions, RegionName) ==> r == regions[0]
  {
    match prefs
    case None => regions[0]
    case Some(p) =>
      var found := FindFirst(regions, RegionName, p.currentRegion);
      if found.None? then regions[0]
      else
        forall i | FirstWithKey(regions, RegionName, p.currentRegion, i) ensures found.value == regions[i] {
          FindFirstAt(regions, RegionName, p.currentRegion, i);
        }
        found.value
  }

  /**
   * The realm made current by a realm list. A stored realm preference only
   * applies while the current region is the preferred region; then the first
   * realm with the preferred slug is chosen. In every other case, and when no
   * slug matches, the first realm of the list is chosen.
   */
  function ResolveRealm(realms: seq<Realm>, prefs: Option<Preference>, currentRegion: Option<Region>): (r: Realm)
    requires |realms| > 0
    requires prefs.Some? ==> currentRegion.Some?
    ensures r in realms
    ensures prefs.None? ==> r == realms[0]
    ensures prefs.Some? && currentRegion.value.name != prefs.value.currentRegion ==> r == realms[0]
    ensures prefs.Some? && currentRegion.value.name == prefs.value.currentRegion ==>
      forall i :: FirstWithKey(realms, RealmSlug, prefs.value.currentRealm, i) ==> r == realms[i]
    ensures prefs.Some? && prefs.value.currentRealm !in KeysOf(realms, RealmSlug) ==> r == realms[0]
  {
    match prefs
    case None => realms[0]
    case Some(p) =>
      if currentRegion.value.name != p.currentRegion then realms[0]
      else
        var found := FindFirst(realms, RealmSlug, p.currentRealm);
        if found.None? then realms[0]
        else
          forall i | FirstWithKey(realms, RealmSlug, p.currentRealm, i) ensures found.value == realms[i] {
            FindFirstAt(realms, RealmSlug, p.currentRealm, i);
          }
          found.value
  }
}
