/**
 * The `main` reducer: the pure transition from the current state (or none,
 * before the store is initialised) and one action to the next state.
 */
module MainReducer {
  import opened Wrappers
  import opened Keyed
  import opened MainTypes
  import opened Resolver
  import opened ItemClasses

  /** Payload of a user reload: the reloaded user, or an error. */
  datatype UserReloadPayload = UserReloadPayload(user: Option<User>, error: Option<string>)

  /** Payload of a user-preferences receive: the stored preference, or an error. */
  datatype PreferencesPayload = PreferencesPayload(preference: Option<Preference>, error: Option<string>)

  /** Payload of a boot receive. */
  datatype BootPayload = BootPayload(
    regions: seq<Region>,
    itemClasses: seq<ItemClass>,
    professions: seq<Profession>,
    expansions: seq<Expansion>)

  /**
   * The actions of the reducer. Unrecognised stands for every action type
   * dispatched to the store that none of the other constructors names, that is
   * every action that reaches the `default:` arm.
   */
  datatype Action =
    | RequestPing
    | ReceivePing(ping: bool)
    | UserRegister(profile: Profile)
    | UserLogin(profile: Profile)
    | ReceiveUserReload(reload: UserReloadPayload)
    | ChangeAuthLevel(authLevel: AuthLevel)
    | RequestUserPreferences
    | ReceiveUserPreferences(preferences: PreferencesPayload)
    | RegionChange(region: Region)
    | RequestRealms
    | ReceiveRealms(realms: Option<seq<Realm>>)
    | RealmChange(realm: Realm)
    | ChangeIsLoginDialogOpen(isOpen: bool)
    | RequestBoot
    | ReceiveBoot(boot: Option<BootPayload>)
    | Unrecognised

  /**
   * What the reducer's non-null assertions and first-element reads take for
   * granted: a reloaded user exists when there is no error, a boot payload has
   * a region, and a current region is set whenever a preference is consulted
   * for a realm list.
   */
  predicate Admissible(state: Option<MainState>, action: Action)
  {
    state.Some? ==>
      match action
      case ReceiveUserReload(p) => p.error.None? ==> p.user.Some?
      case ReceiveRealms(Some(payload)) =>
        |payload| > 0 && state.value.userPreferences.Some? ==> state.value.currentRegion.Some?
      case ReceiveBoot(Some(boot)) => |boot.regions| > 0
      case _ => true
  }

  /**
   * The reducer. Before initialisation it yields the default state; afterwards
   * the token read at start-up survives every action.
   */
  function Main(state: Option<MainState>, action: Action): (r: MainState)
    requires Admissible(state, action)
    ensures state.None? ==> r == DefaultMainState
    ensures state.Some? ==> r.preloadedToken == state.value.preloadedToken
  {
    match state
    case None => DefaultMainState
    case Some(s) =>
      match action
      case RequestPing => s.(fetchPingLevel := Fetching)
      case ReceivePing(ping) =>
        if ping == false then s.(fetchPingLevel := Failure) else s.(fetchPingLevel := Success)
      case UserRegister(profile) =>
        s.(profile := Some(profile), isRegistered := true, authLevel := Authenticated)
      case UserLogin(profile) =>
        s.(profile := Some(profile), isLoggedIn := true, authLevel := Authenticated)
      case ReceiveUserReload(p) =>
        if p.error.Some? then s.(authLevel := Unauthenticated)
        else s.(authLevel := Authenticated, profile := Some(Profile(p.user.value, s.preloadedToken)))
      case ChangeAuthLevel(level) => s.(authLevel := level)
      case RequestUserPreferences => s.(fetchUserPreferencesLevel := Fetching)
      case ReceiveUserPreferences(p) =>
        if p.error.Some? then s.(fetchUserPreferencesLevel := Failure)
        else s.(fetchUserPreferencesLevel := Success, userPreferences := p.preference)
      case RegionChange(region) => s.(currentRegion := Some(region), fetchRealmLevel := Prompted)
      case RequestRealms => s.(fetchRealmLevel := Fetching)
      case ReceiveRealms(payload) => ReceiveRealmsArm(s, payload)
      case RealmChange(realm) => s.(currentRealm := Some(realm))
      case ChangeIsLoginDialogOpen(isOpen) => s.(isLoginDialogOpen := isOpen)
      case RequestBoot => s.(fetchBootLevel := Fetching)
      case ReceiveBoot(payload) => ReceiveBootArm(s, payload)
      case Unrecognised => s
  }

  /** The `RECEIVE_REALMS` arm: fail on a null or empty list, else index the realms and resolve the current one. */
  function ReceiveRealmsArm(s: MainState, payload: Option<seq<Realm>>): (r: MainState)
    requires payload.Some? && |payload.value| > 0 && s.userPreferences.Some? ==> s.currentRegion.Some?
    ensures r.fetchRealmLevel == if payload.None? || |payload.value| == 0 then Failure else Success
    ensures payload.None? || |payload.value| == 0 ==> r.realms == s.realms && r.currentRealm == s.currentRealm
    ensures payload.Some? && |payload.value| > 0 ==>
      && r.realms.Keys == KeysOf(payload.value, RealmSlug)
      && (forall slug :: slug in r.realms ==> r.realms[slug].slug == slug)
      && r.currentRealm.Some? && r.currentRealm.value in payload.value
    ensures r.fetchBootLevel == s.fetchBootLevel && r.fetchPingLevel == s.fetchPingLevel
    ensures r.fetchUserPreferencesLevel == s.fetchUserPreferencesLevel
    ensures r.userPreferences == s.userPreferences && r.currentRegion == s.currentRegion && r.regions == s.regions
  {
    if payload.None? || |payload.value| == 0 then s.(fetchRealmLevel := Failure)
    else
      var currentRealm := ResolveRealm(payload.value, s.userPreferences, s.currentRegion);
      var realms := Index(payload.value, RealmSlug);
      s.(fetchRealmLevel := Success, realms := realms, currentRealm := Some(currentRealm))
  }

  /** The `RECEIVE_BOOT` arm: fail on a null payload, else resolve the region and build the region and item-class maps. */
  function ReceiveBootArm(s: MainState, payload: Option<BootPayload>): (r: MainState)
    requires payload.Some? ==> |payload.value.regions| > 0
    ensures r.fetchBootLevel == if payload.None? then Failure else Success
    ensures r.fetchRealmLevel == if payload.None? then s.fetchRealmLevel else Prompted
    ensures payload.None? ==> r.regions == s.regions && r.currentRegion == s.currentRegion && r.itemClasses == s.itemClasses
    ensures payload.Some? ==>
      && r.currentRegion.Some? && r.currentRegion.value in payload.value.regions
      && r.regions.Keys == KeysOf(payload.value.regions, RegionName)
      && (forall name :: name in r.regions ==> r.regions[name].name == name)
      && r.itemClasses.Keys == KeysOf(payload.value.itemClasses, ItemClassId)
      && r.professions == payload.value.professions && r.expansions == payload.value.expansions
    ensures r.fetchPingLevel == s.fetchPingLevel && r.fetchUserPreferencesLevel == s.fetchUserPreferencesLevel
    ensures r.userPreferences == s.userPreferences
    ensures r.realms == s.realms && r.currentRealm == s.currentRealm
  {
    if payload.None? then s.(fetchBootLevel := Failure)
    else
      var boot := payload.value;
      var bootCurrentRegion := ResolveRegion(boot.regions, s.userPreferences);
      var bootRegions := Index(boot.regions, RegionName);
      var bootItemClasses := ItemClassHierarchy(boot.itemClasses);
      s.(
        currentRegion := Some(bootCurrentRegion),
        expansions := boot.expansions,
        fetchBootLevel := Success,
        fetchRealmLevel := Prompted,
        itemClasses := bootItemClasses,
        professions := boot.professions,
        regions := bootRegions)
  }
}
