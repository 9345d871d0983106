/**
 * What the reducer does, arm by arm: which fields each action changes, what
 * the realm and region receives select and index, and what every other field
 * keeps.
 */
module MainProperties {
  import opened Wrappers
  import opened Keyed
  import opened MainTypes
  import opened Resolver
  import opened ItemClasses
  import opened MainReducer

  /** Before the store is initialised every action yields the default state. */
  lemma DefaultOnUndefined(action: Action)
    ensures Main(None, action) == DefaultMainState
  {
  }

  /** An action type the reducer does not handle leaves the state as it is. */
  lemma UnrecognisedIsIdentity(s: MainState)
    ensures Main(Some(s), Unrecognised) == s
  {
  }

  /** A ping request sets the ping level to fetching; a ping receive fails exactly on `false`. Nothing else changes. */
  lemma PingArms(s: MainState, ping: bool)
    ensures Main(Some(s), RequestPing) == s.(fetchPingLevel := Fetching)
    ensures Main(Some(s), ReceivePing(ping)) == s.(fetchPingLevel := if ping then Success else Failure)
  {
  }

  /** Registering or logging in stores the profile and authenticates. */
  lemma UserRegisterAndLoginArms(s: MainState, profile: Profile)
    ensures Main(Some(s), UserRegister(profile)) ==
            s.(profile := Some(profile), isRegistered := true, authLevel := Authenticated)
    ensures Main(Some(s), UserLogin(profile)) ==
            s.(profile := Some(profile), isLoggedIn := true, authLevel := Authenticated)
  {
  }

  /**
   * A reload with an error only marks the session unauthenticated; a reload
   * without one authenticates and rebuilds the profile from the reloaded user
   * and the token read at start-up.
   */
  lemma ReceiveUserReloadArm(s: MainState, p: UserReloadPayload)
    requires p.error.None? ==> p.user.Some?
    ensures p.error.Some? ==> Main(Some(s), ReceiveUserReload(p)) == s.(authLevel := Unauthenticated)
    ensures p.error.None? ==>
      var r := Main(Some(s), ReceiveUserReload(p));
      && r.authLevel == Authenticated
      && r.profile == Some(Profile(p.user.value, s.preloadedToken))
      && r.(authLevel := s.authLevel, profile := s.profile) == s
  {
  }

  /**
   * A preferences request sets its level to fetching; a receive fails on an
   * error and otherwise stores the delivered preference. Nothing else changes.
   */
  lemma UserPreferencesArms(s: MainState, p: PreferencesPayload)
    ensures Main(Some(s), RequestUserPreferences) == s.(fetchUserPreferencesLevel := Fetching)
    ensures p.error.Some? ==>
      Main(Some(s), ReceiveUserPreferences(p)) == s.(fetchUserPreferencesLevel := Failure)
    ensures p.error.None? ==>
      Main(Some(s), ReceiveUserPreferences(p)) ==
      s.(fetchUserPreferencesLevel := Success, userPreferences := p.preference)
  {
  }

  /** Changing the auth level writes it and nothing else. */
  lemma ChangeAuthLevelArm(s: MainState, level: AuthLevel)
    ensures Main(Some(s), ChangeAuthLevel(level)) == s.(authLevel := level)
  {
  }

  /** A region change makes the region current and prompts a realm fetch; nothing else changes. */
  lemma RegionChangeArm(s: MainState, region: Region)
    ensures Main(Some(s), RegionChange(region)) == s.(currentRegion := Some(region), fetchRealmLevel := Prompted)
  {
  }

  /** A realm request sets the realm level to fetching and nothing else. */
  lemma RequestRealmsArm(s: MainState)
    ensures Main(Some(s), RequestRealms) == s.(fetchRealmLevel := Fetching)
  {
  }

  /** A realm change overrides the current realm and nothing else. */
  lemma RealmChangeArm(s: MainState, realm: Realm)
    ensures Main(Some(s), RealmChange(realm)) == s.(currentRealm := Some(realm))
  {
  }

  /** Opening or closing the login dialog writes the flag and nothing else. */
  lemma LoginDialogArm(s: MainState, isOpen: bool)
    ensures Main(Some(s), ChangeIsLoginDialogOpen(isOpen)) == s.(isLoginDialogOpen := isOpen)
  {
  }

  /** A boot request sets the boot level to fetching and nothing else. */
  lemma RequestBootArm(s: MainState)
    ensures Main(Some(s), RequestBoot) == s.(fetchBootLevel := Fetching)
  {
  }

  /** A null or empty realm list only marks the realm fetch failed: the realms and the current realm stay. */
  lemma ReceiveRealmsFailure(s: MainState, payload: Option<seq<Realm>>)
    requires payload.None? || |payload.value| == 0
    ensures Main(Some(s), ReceiveRealms(payload)) == s.(fetchRealmLevel := Failure)
  {
  }

  /**
   * A non-empty realm list succeeds: the realms are indexed by slug with the
   * later realm winning a repeated slug, the current realm is the resolved one
   * (always a member of the list), and no other field changes.
   */
  lemma ReceiveRealmsSuccess(s: MainState, payload: seq<Realm>)
    requires |payload| > 0
    requires s.userPreferences.Some? ==> s.currentRegion.Some?
    ensures var r := Main(Some(s), ReceiveRealms(Some(payload)));
      && r.fetchRealmLevel == Success
      && r.realms.Keys == KeysOf(payload, RealmSlug)
      && (forall i :: LastWithKey(payload, RealmSlug, i) ==> r.realms[payload[i].slug] == payload[i])
      && r.currentRealm == Some(ResolveRealm(payload, s.userPreferences, s.currentRegion))
      && r.currentRealm.value in payload
      && r.(fetchRealmLevel := s.fetchRealmLevel, realms := s.realms, currentRealm := s.currentRealm) == s
  {
  }

  /**
   * With unique slugs the realm map holds every realm exactly once and the
   * current realm is the realm stored under its own slug.
   */
  lemma CurrentRealmIsIndexed(s: MainState, payload: seq<Realm>)
    requires |payload| > 0
    requires s.userPreferences.Some? ==> s.currentRegion.Some?
    requires UniqueKeys(payload, RealmSlug)
    ensures var r := Main(Some(s), ReceiveRealms(Some(payload)));
      && |r.realms| == |payload|
      && r.currentRealm.Some?
      && r.currentRealm.value.slug in r.realms
      && r.realms[r.currentRealm.value.slug] == r.currentRealm.value
  {
    assert Main(Some(s), ReceiveRealms(Some(payload))) == ReceiveRealmsArm(s, Some(payload));
    IndexOfUniqueKeys(payload, RealmSlug);
    var realm := ResolveRealm(payload, s.userPreferences, s.currentRegion);
    var i :| 0 <= i < |payload| && payload[i] == realm;
    assert Index(payload, RealmSlug)[RealmSlug(payload[i])] == payload[i];
  }

  /** A null boot payload only marks the boot fetch failed. */
  lemma ReceiveBootFailure(s: MainState)
    ensures Main(Some(s), ReceiveBoot(None)) == s.(fetchBootLevel := Failure)
  {
  }

  /**
   * A boot payload succeeds: the current region is the resolved one (a member
   * of the payload's regions), the regions are indexed by name, the item-class
   * hierarchy is rebuilt, professions and expansions are stored, the realm
   * fetch is prompted, and no other field changes.
   */
  lemma ReceiveBootSuccess(s: MainState, boot: BootPayload)
    requires |boot.regions| > 0
    ensures var r := Main(Some(s), ReceiveBoot(Some(boot)));
      && r.fetchBootLevel == Success
      && r.fetchRealmLevel == Prompted
      && r.currentRegion == Some(ResolveRegion(boot.regions, s.userPreferences))
      && r.currentRegion.value in boot.regions
      && r.regions.Keys == KeysOf(boot.regions, RegionName)
      && (forall i :: LastWithKey(boot.regions, RegionName, i) ==> r.regions[boot.regions[i].name] == boot.regions[i])
      && r.itemClasses == ItemClassHierarchy(boot.itemClasses)
      && r.professions == boot.professions
      && r.expansions == boot.expansions
      && r.(fetchBootLevel := s.fetchBootLevel, fetchRealmLevel := s.fetchRealmLevel,
            currentRegion := s.currentRegion, regions := s.regions, itemClasses := s.itemClasses,
            professions := s.professions, expansions := s.expansions) == s
  {
  }

  /**
   * With unique region names the region map holds every region exactly once
   * and the current region is the region stored under its own name.
   */
  lemma CurrentRegionIsIndexed(s: MainState, boot: BootPayload)
    requires |boot.regions| > 0
    requires UniqueKeys(boot.regions, RegionName)
    ensures var r := Main(Some(s), ReceiveBoot(Some(boot)));
      && |r.regions| == |boot.regions|
      && r.currentRegion.Some?
      && r.currentRegion.value.name in r.regions
      && r.regions[r.currentRegion.value.name] == r.currentRegion.value
  {
    assert Main(Some(s), ReceiveBoot(Some(boot))) == ReceiveBootArm(s, Some(boot));
    IndexOfUniqueKeys(boot.regions, RegionName);
    var region := ResolveRegion(boot.regions, s.userPreferences);
    var i :| 0 <= i < |boot.regions| && boot.regions[i] == region;
    assert Index(boot.regions, RegionName)[RegionName(boot.regions[i])] == boot.regions[i];
  }

  /**
   * After a boot every delivered item class is stored under its id with its
   * name and subclass list, and its subclasses are indexed by subclass id,
   * later duplicates overwriting earlier ones.
   */
  lemma BootItemClasses(s: MainState, boot: BootPayload)
    requires |boot.regions| > 0
    ensures var m := Main(Some(s), ReceiveBoot(Some(boot))).itemClasses;
      && m.Keys == KeysOf(boot.itemClasses, ItemClassId)
      && forall i :: LastWithKey(boot.itemClasses, ItemClassId, i) ==>
           var c := boot.itemClasses[i];
           && m[c.itemClass].itemClass == c.itemClass
           && m[c.itemClass].name == c.name
           && m[c.itemClass].subClasses == c.subClasses
           && m[c.itemClass].subClassesMap.Keys == KeysOf(c.subClasses, SubclassId)
           && forall j :: LastWithKey(c.subClasses, SubclassId, j) ==>
                m[c.itemClass].subClassesMap[c.subClasses[j].subclass] == c.subClasses[j]
  {
    assert Main(Some(s), ReceiveBoot(Some(boot))) == ReceiveBootArm(s, Some(boot));
    ItemClassHierarchyShape(boot.itemClasses);
  }
}
