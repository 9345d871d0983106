/**
 * The entities the `main` reducer reads and writes: regions and realms as
 * delivered by the server, the stored user preference, the profile, the
 * item-class hierarchy, the fetch and auth levels and the state record itself.
 */
module MainTypes {
  import opened Wrappers

  /** Lifecycle of one asynchronous resource fetch. */
  datatype FetchLevel = Initial | Prompted | Fetching | Success | Failure

  /** Authentication status of the session. */
  datatype AuthLevel = Initial | Unauthenticated | Authenticated

  datatype Region = Region(name: string, hostname: string)

  datatype RealmPopulation = NotAvailable | Medium | High | Full

  datatype Realm = Realm(
    regionName: string,
    realmType: string,
    population: RealmPopulation,
    queue: bool,
    status: bool,
    name: string,
    slug: string,
    battlegroup: string,
    locale: string,
    timezone: string,
    connectedRealms: seq<string>,
    lastModified: int)

  /** The user's last stored choice of region (by name) and realm (by slug). */
  datatype Preference = Preference(currentRegion: string, currentRealm: string)

  /** The fields of a user are opaque to the reducer. */
  datatype User = User(id: int, email: string)

  datatype Profile = Profile(user: User, token: string)

  datatype SubItemClass = SubItemClass(subclass: int, name: string)

  datatype ItemClass = ItemClass(itemClass: int, name: string, subClasses: seq<SubItemClass>)

  /** An item class as stored in the state: its list of subclasses and the same subclasses by id. */
  datatype ItemClassEntry = ItemClassEntry(
    itemClass: int,
    name: string,
    subClasses: seq<SubItemClass>,
    subClassesMap: map<int, SubItemClass>)

  /** Professions and expansions are stored as delivered; their fields are opaque to the reducer. */
  datatype Profession = Profession(name: string, title: string)

  datatype Expansion = Expansion(name: string, title: string)

  datatype MainState = MainState(
    fetchPingLevel: FetchLevel,
    profile: Option<Profile>,
    isRegistered: bool,
    isLoggedIn: bool,
    authLevel: AuthLevel,
    preloadedToken: string,
    fetchUserPreferencesLevel: FetchLevel,
    userPreferences: Option<Preference>,
    currentRegion: Option<Region>,
    fetchRealmLevel: FetchLevel,
    realms: map<string, Realm>,
    currentRealm: Option<Realm>,
    isLoginDialogOpen: bool,
    fetchBootLevel: FetchLevel,
    regions: map<string, Region>,
    itemClasses: map<int, ItemClassEntry>,
    professions: seq<Profession>,
    expansions: seq<Expansion>)

  /** The state of a store that has not been initialised: every level initial, every collection empty. */
  const DefaultMainState := MainState(
    fetchPingLevel := FetchLevel.Initial,
    profile := None,
    isRegistered := false,
    isLoggedIn := false,
    authLevel := AuthLevel.Initial,
    preloadedToken := "",
    fetchUserPreferencesLevel := FetchLevel.Initial,
    userPreferences := None,
    currentRegion := None,
    fetchRealmLevel := FetchLevel.Initial,
    realms := map[],
    currentRealm := None,
    isLoginDialogOpen := false,
    fetchBootLevel := FetchLevel.Initial,
    regions := map[],
    itemClasses := map[],
    professions := [],
    expansions := [])

  // The keys under which the reducer indexes and searches its collections.

  function RegionName(r: Region): string { r.name }

  function RealmSlug(r: Realm): string { r.slug }

  function ItemClassId(c: ItemClass): int { c.itemClass }

  function EntryClassId(e: ItemClassEntry): int { e.itemClass }

  function SubclassId(c: SubItemClass): int { c.subclass }
}
