/**
 * Concrete runs of the reducer: the preference resolver at boot and on a realm
 * list, with and without a region mismatch.
 */
module Scenarios {
  import opened Wrappers
  import opened MainTypes
  import opened MainReducer
  import Keyed

  function SampleRealm(regionName: string, slug: string): Realm
  {
    Realm(regionName, "normal", Medium, false, true, slug, slug, "bg", "en_US", "UTC", [], 0)
  }

  const Eu := Region("eu", "eu.example")
  const Us := Region("us", "us.example")
  const Org := SampleRealm("us", "org")
  const Sw := SampleRealm("us", "sw")

  function Boot(regions: seq<Region>): BootPayload
  {
    BootPayload(regions, [], [], [])
  }

  /** Without a stored preference the first realm of the list becomes current. */
  lemma NoPreferencePicksFirstRealm(s: MainState)
    requires s.userPreferences.None?
    ensures Main(Some(s), ReceiveRealms(Some([Org, Sw]))).currentRealm == Some(Org)
  {
  }

  /**
   * Preferences (us, sw) arrive, the boot resolves the preferred region us out
   * of [eu, us], and the realm list [org, sw] then resolves to the preferred sw.
   */
  lemma PreferredRegionThenPreferredRealm()
    ensures
      var s1 := Main(Some(DefaultMainState),
                     ReceiveUserPreferences(PreferencesPayload(Some(Preference("us", "sw")), None)));
      var s2 := Main(Some(s1), ReceiveBoot(Some(Boot([Eu, Us]))));
      var s3 := Main(Some(s2), ReceiveRealms(Some([Org, Sw])));
      && s2.currentRegion == Some(Us)
      && s2.fetchRealmLevel == Prompted
      && s3.currentRealm == Some(Sw)
      && s3.fetchRealmLevel == Success
  {
    var s1 := Main(Some(DefaultMainState),
                   ReceiveUserPreferences(PreferencesPayload(Some(Preference("us", "sw")), None)));
    assert s1.userPreferences == Some(Preference("us", "sw"));
    var s2 := Main(Some(s1), ReceiveBoot(Some(Boot([Eu, Us]))));
    assert s2 == ReceiveBootArm(s1, Some(Boot([Eu, Us])));
    assert [Eu, Us][..1] == [Eu];
    var s3 := Main(Some(s2), ReceiveRealms(Some([Org, Sw])));
    assert s3 == ReceiveRealmsArm(s2, Some([Org, Sw]));
    assert [Org, Sw][..1] == [Org];
  }

  /**
   * With the same preferences a region change to eu makes the realm preference
   * void: the realm list [org, sw] resolves to its first element, not to sw.
   */
  lemma RegionMismatchIgnoresRealmPreference(s: MainState)
    requires s.userPreferences == Some(Preference("us", "sw"))
    ensures
      var s1 := Main(Some(s), RegionChange(Eu));
      var s2 := Main(Some(s1), ReceiveRealms(Some([Org, Sw])));
      && s1.fetchRealmLevel == Prompted
      && s2.currentRealm == Some(Org)
  {
  }

  /**
   * Why the realm map and the current realm agree only under unique slugs: the
   * resolver keeps the first realm with the preferred slug and the map the last.
   */
  lemma DuplicateSlugsSplitCurrentRealm(s: MainState)
    requires s.userPreferences == Some(Preference("us", "org"))
    requires s.currentRegion == Some(Us)
    ensures
      var first := SampleRealm("us", "org");
      var second := first.(name := "Orgrimmar (2)");
      var r := Main(Some(s), ReceiveRealms(Some([first, second])));
      && r.currentRealm == Some(first)
      && r.realms["org"] == second
      && first != second
  {
    var first := SampleRealm("us", "org");
    var second := first.(name := "Orgrimmar (2)");
    assert Main(Some(s), ReceiveRealms(Some([first, second]))) == ReceiveRealmsArm(s, Some([first, second]));
    assert [first, second][..1] == [first];
    assert first.slug == "org" && second.slug == "org";
    Keyed.FindFirstAt([first, second], RealmSlug, "org", 0);
    assert Keyed.LastWithKey([first, second], RealmSlug, 1);
  }
}
