# The `main` reducer of the realm/region dashboard client, in Dafny

This project models the client's central state store: the Redux reducer `main`
(`app/src/reducers/main.ts`). It is a pure, total transition. It takes the
current state (or none, before the store is initialised) and one action, and
returns the next state. The reducer combines three pieces of logic:

- **The fetch-level state machine.** Ping, boot, realm list and user
  preferences each have a level: `initial`, `prompted`, `fetching`, `success`
  or `failure`. Request and receive actions move these levels.
- **The preference resolver.** At boot it picks the current region from the
  delivered regions. When a realm list arrives it picks the current realm.
  Each pick is the first candidate whose key matches the stored preference,
  falling back to the first candidate. The realm preference only applies while
  the current region is the preferred region.
- **The keyed-collection builders.** These index realms by slug and regions by
  name; a later element overwrites an earlier one that has the same key. At boot
  they also build the two-level item-class hierarchy: classes by class id, and
  inside each class its subclasses by subclass id.

Files, one module each:

- `wrappers.dfy`. `Option`, for the source's nullable values.
- `keyed.dfy`. `Index` models `reduce((result, e) => ({ ...result, [key]: e }), {})`.
  `FindFirst` models the first-match `reduce`. Both are generic in the key. The
  lemmas cover uniqueness and the first match.
- `types.dfy`. Regions, realms, preferences, profiles, item classes, the fetch
  and auth levels, the state record and the default state.
- `resolver.dfy`. `ResolveRegion` and `ResolveRealm`, the two resolvers written
  as immediately-invoked functions in the source.
- `item_classes.dfy`. The nested `for` loops of the boot arm as the method
  `BuildItemClasses`. It is proved equal to the functional `ItemClassHierarchy`,
  which is `Index` applied to the classes and, inside each class, to its
  subclasses.
- `main_reducer.dfy`. The action type, the reducer `Main`, its two large arms
  (`ReceiveRealmsArm`, `ReceiveBootArm`) and `Admissible`, which states what
  the source's non-null assertions take for granted.
- `main_properties.dfy`. Lemmas on the arms of the `switch`, one or two arms
  each, plus lemmas on what the realm and boot receives index: which fields
  change, and to what.
  A record update `s.(f := v)` compared with the result says that every other
  field is unchanged.
- `fetch_lifecycle.dfy`. The fetch-level machine `Step`, defined independently
  of the reducer, and the lemma that the reducer moves every level by a step of
  it.
- `scenarios.dfy`. Concrete runs: the preferred region and then the preferred
  realm; a region mismatch that voids the realm preference; and repeated slugs.

## Model

| member | source | states |
|---|---|---|
| `Keyed.Index` | app/src/reducers/main.ts:113 | the map's keys are exactly the keys in the list; each entry is stored under its own key; the last element with a given key is the one stored under it (later elements overwrite earlier ones) |
| `Keyed.IndexPrefixStep` | app/src/reducers/main.ts:113 | indexing one more element stores it under its key, over whatever that key held |
| `Keyed.IndexOfUniqueKeys` | app/src/reducers/main.ts:152-155 | when keys are unique, the map has exactly as many entries as the list has elements, and every element is stored under its key |
| `Keyed.FindFirst` | app/src/reducers/main.ts:92-102 | the first-match fold returns a value exactly when some element has the key, and that value is the first element with the key |
| `Keyed.FindFirstAt` | app/src/reducers/main.ts:133-143 | if position i holds the first element with key k, the fold returns that element |
| `Resolver.ResolveRegion` | app/src/reducers/main.ts:127-150 | the result is one of the regions; with no preference it is the first region; with a preference it is the first region with the preferred name, or the first region when no region has that name |
| `Resolver.ResolveRealm` | app/src/reducers/main.ts:76-111 | the result is one of the realms; with no preference, or when the current region's name differs from the preferred region, it is the first realm; otherwise it is the first realm with the preferred slug, or the first realm when no slug matches |
| `ItemClasses.Entry` | app/src/reducers/main.ts:159-168 | the stored entry keeps the class id, name and original subclass list; its subclass map has exactly the subclass ids as keys, and each id maps to the last subclass with that id |
| `ItemClasses.Entries` | app/src/reducers/main.ts:158-169 | one entry per item class, in the same order |
| `ItemClasses.EntriesPrefixStep` | app/src/reducers/main.ts:158-169 | one more item class appends its entry |
| `ItemClasses.HierarchyPrefixStep` | app/src/reducers/main.ts:163-168 | one more iteration of the outer loop stores the class's entry under its id, over whatever that id held |
| `ItemClasses.EntriesKeys` | app/src/reducers/main.ts:158-168 | the entries carry exactly the class ids of the delivered item classes |
| `ItemClasses.ItemClassHierarchy` | app/src/reducers/main.ts:157-169 | the functional form of the nested loops: the hierarchy's keys are exactly the class ids, and each id holds an entry for that id |
| `ItemClasses.ItemClassHierarchyShape` | app/src/reducers/main.ts:157-169 | the hierarchy's keys are exactly the class ids; the last class with an id is stored under it, with its name, its subclass list and its subclass map |
| `ItemClasses.BuildItemClasses` | app/src/reducers/main.ts:157-169 | the nested loops, which fill the dictionaries in place, produce exactly `ItemClassHierarchy` of the delivered classes |
| `MainReducer.Main` | app/src/reducers/main.ts:25-184 | with no state the result is the default state; no action changes the preloaded token |
| `MainReducer.ReceiveRealmsArm` | app/src/reducers/main.ts:71-115 | a null or empty realm list sets the realm level to failure and keeps the realms and the current realm; a non-empty list sets it to success, indexes the realms by slug (each slug holds a realm with that slug) and makes a member of the list current; the ping, preferences and boot levels, the stored preference, the current region and the regions are kept |
| `MainReducer.ReceiveBootArm` | app/src/reducers/main.ts:122-180 | a null payload sets the boot level to failure and keeps the realm level, the regions, the current region and the item classes; otherwise the boot level becomes success and the realm level prompted, a delivered region becomes current, the regions are indexed by name (each name holds a region with that name), the item classes are indexed by class id, and the professions and expansions are stored; the ping and preferences levels, the stored preference, the realms and the current realm are kept |
| `MainProperties.DefaultOnUndefined` | app/src/reducers/main.ts:26-28 | before initialisation every action yields the default state |
| `MainProperties.UnrecognisedIsIdentity` | app/src/reducers/main.ts:181-182 | an action type the reducer does not handle returns the state unchanged |
| `MainProperties.PingArms` | app/src/reducers/main.ts:31-38 | a ping request sets only the ping level to fetching; a ping receive sets only that level, to failure on `false` and to success otherwise |
| `MainProperties.UserRegisterAndLoginArms` | app/src/reducers/main.ts:39-42 | register and login store the profile, set their own flag and authenticate; nothing else changes |
| `MainProperties.ReceiveUserReloadArm` | app/src/reducers/main.ts:43-52 | a reload with an error only sets the auth level to unauthenticated; a reload without one authenticates, and the new profile's user is the reloaded user and its token is the preloaded token; nothing else changes |
| `MainProperties.ChangeAuthLevelArm` | app/src/reducers/main.ts:53-54 | only the auth level is set, to the delivered value |
| `MainProperties.UserPreferencesArms` | app/src/reducers/main.ts:55-66 | a request sets only its level to fetching; a receive with an error sets only its level to failure; a receive without one sets success and stores the delivered preference |
| `MainProperties.RegionChangeArm` | app/src/reducers/main.ts:67-68 | the region becomes current and the realm level becomes prompted; nothing else changes |
| `MainProperties.RequestRealmsArm` | app/src/reducers/main.ts:69-70 | only the realm level is set, to fetching |
| `MainProperties.ReceiveRealmsFailure` | app/src/reducers/main.ts:71-74 | a null or empty realm list only sets the realm level to failure; the realms and the current realm are kept |
| `MainProperties.ReceiveRealmsSuccess` | app/src/reducers/main.ts:71-115 | a non-empty list sets the realm level to success; the realm map's keys are the slugs of the list, and each slug maps to the last realm with it; the current realm is the resolved realm and is a member of the list; nothing else changes |
| `MainProperties.CurrentRealmIsIndexed` | app/src/reducers/main.ts:76-115 | when slugs are unique, the realm map holds every realm once, and the current realm is the realm stored under its own slug |
| `MainProperties.RealmChangeArm` | app/src/reducers/main.ts:116-117 | only the current realm is set, to the chosen realm |
| `MainProperties.LoginDialogArm` | app/src/reducers/main.ts:118-119 | only the login-dialog flag is set |
| `MainProperties.RequestBootArm` | app/src/reducers/main.ts:120-121 | only the boot level is set, to fetching |
| `MainProperties.ReceiveBootFailure` | app/src/reducers/main.ts:122-125 | a null boot payload only sets the boot level to failure |
| `MainProperties.ReceiveBootSuccess` | app/src/reducers/main.ts:122-180 | the boot level becomes success and the realm level prompted; the current region is the resolved region and is one of the delivered regions; the region map's keys are the names, and each name maps to the last region with it; the item classes are rebuilt; professions and expansions are stored; nothing else changes |
| `MainProperties.CurrentRegionIsIndexed` | app/src/reducers/main.ts:127-155 | when region names are unique, the region map holds every region once, and the current region is the region stored under its own name |
| `MainProperties.BootItemClasses` | app/src/reducers/main.ts:157-177 | after a boot every delivered item class is stored under its id, with its name, its subclass list and a subclass map in which later duplicates overwrite earlier ones |
| `FetchLifecycle.MainFollowsLifecycle` | app/src/reducers/main.ts:30-183 | for every action and every resource, the level after the action is a step of the machine from the level before it: request to fetching; receive to failure or success, depending on the error indicator; a region change or successful boot to prompted for realms; any other action leaves the level unchanged |
| `FetchLifecycle.ReceiveRealmsLevels` | app/src/reducers/main.ts:71-115 | a realm receive changes only the realm level, to failure on a null or empty list and to success otherwise |
| `FetchLifecycle.ReceiveBootLevels` | app/src/reducers/main.ts:122-180 | a null boot only sets the boot level to failure; a successful boot sets it to success and the realm level to prompted |
| `FetchLifecycle.PingAndPreferencesLevels` | app/src/reducers/main.ts:31-66 | the ping and preference actions move only their own level: to fetching on a request, and on a receive to failure on the error indicator and to success otherwise |
| `FetchLifecycle.RealmAndBootRequestLevels` | app/src/reducers/main.ts:67-121 | a region change only prompts the realm fetch; the realm and boot requests only set their own level to fetching |
| `FetchLifecycle.LevelsUntouched` | app/src/reducers/main.ts:39-182 | the register, login, reload, auth-level, realm-change, dialog and unrecognised actions leave all four levels as they were |
| `FetchLifecycle.FetchingOnlyByRequest` | app/src/reducers/main.ts:31-121 | a level that was not fetching becomes fetching only through its own request |
| `FetchLifecycle.LeavingFetching` | app/src/reducers/main.ts:33-180 | a level leaves fetching only through its own receive, which gives success or failure, or through a change that prompts a realm fetch |
| `FetchLifecycle.ReceiveWithoutRequest` | app/src/reducers/main.ts:33-38 | a receive is applied whatever the prior level: from the default state a ping receive goes straight from initial to success |
| `Scenarios.NoPreferencePicksFirstRealm` | app/src/reducers/main.ts:78-80 | with no stored preference, the realm list [org, sw] resolves to org |
| `Scenarios.PreferredRegionThenPreferredRealm` | app/src/reducers/main.ts:127-150 | preference (us, sw): the boot picks us out of [eu, us] and prompts a realm fetch, then [org, sw] resolves to sw |
| `Scenarios.RegionMismatchIgnoresRealmPreference` | app/src/reducers/main.ts:86-89 | with preference (us, sw), after a change to region eu the list [org, sw] resolves to its first realm, org |
| `Scenarios.DuplicateSlugsSplitCurrentRealm` | app/src/reducers/main.ts:92-113 | with two realms that share the preferred slug, the current realm is the first of them while the realm map holds the second |

## Modelling decisions

- The action objects become the closed datatype `Action`. `Unrecognised`
  stands for every action type dispatched to the store that no other
  constructor names, which reaches the `default:` arm.
- `null` becomes `Option`. A payload's `error` becomes `Option<string>`.
- The non-null assertions `state.currentRegion!` (line 87) and
  `action.payload.user!` (line 51) become conditions in `Admissible`. So does
  the read of `action.payload.regions[0]` (lines 129 and 146). A non-null boot
  payload must have at least one region. A current region must be set when a
  stored preference is consulted for a non-empty realm list. A reload without an
  error must carry a user.
- The `reduce` folds are recursion on the prefix of the list, which is a left
  fold. The first-match fold visits every element, as the source's does, and
  keeps the first match.
- Object keys become typed map keys: strings for slugs and region names,
  integers for class and subclass ids. JavaScript turns the numeric ids into
  property names. That conversion is injective, so the model has the same keys
  and the same entry under each key as the source's objects. It does not have
  their key order, which is left out below.
- A receive sets its level whatever the level was before, with or without a
  request first: the reducer never reads the level it replaces
  (`FetchLifecycle.MainFollowsLifecycle`, and, from the default state,
  `FetchLifecycle.ReceiveWithoutRequest`).
- A non-null boot payload with an empty region list is not rejected: the code
  only checks for `null` (line 123). The model therefore requires at least one
  region, as stated above under `Admissible`.

## Left out

- `defaultMainState`, the `FetchLevel` and `AuthLevel` enums and the action
  constants live in `app/src/types/main.ts` and `app/src/actions/main.ts`; those
  files are not part of this model. `DefaultMainState` therefore fixes every
  level at `Initial`, every collection empty, every nullable field `None`,
  every flag `false` and the preloaded token `""`. `AuthLevel` has only the
  values the reducer writes, plus `Initial`.
- The user, profession and expansion records are not shown; the model gives
  them placeholder fields. The reducer only stores these values as delivered.
- The key order of the `realms`, `regions`, `itemClasses` and
  `subClassesMap` objects is not modelled. The models are Dafny `map`s, which
  have no order. In the source, slugs and names keep the position where they
  first appear, even when a later duplicate replaces the value. Integer ids
  come out in ascending order. The components that list realms and regions
  iterate in that order.
- Structural sharing and reference identity of the spread copies are not
  modelled. Dafny values have no identity, so "returns `state` itself" and
  "returns an equal copy" are the same here.
- The React components (`Listing.tsx`, `RegionToggle.tsx`, `RealmList.tsx`,
  `Content.tsx`) and the `connect` containers are not modelled. They render,
  project fields and dispatch network thunks.
- Network transport, token storage and timing are outside the reducer. A stale
  receive, one that arrives while a newer request has the level at fetching, is
  just another receive action; `MainFollowsLifecycle` shows it is applied,
  because the machine `Step` ignores the level it starts from.
