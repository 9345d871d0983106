/**
 * The fetch-level state machine the reducer drives for each of its four
 * resources, stated independently of the reducer and then shown to be what the
 * reducer does.
 */
module FetchLifecycle {
  import opened Wrappers
  import opened MainTypes
  import opened MainReducer

  datatype Resource = Ping | UserPreferences | Realms | Boot

  function LevelOf(s: MainState, res: Resource): FetchLevel
  {
    match res
    case Ping => s.fetchPingLevel
    case UserPreferences => s.fetchUserPreferencesLevel
    case Realms => s.fetchRealmLevel
    case Boot => s.fetchBootLevel
  }

  /** The four levels of a state, in the order ping, preferences, realms, boot. */
  function LevelsOf(s: MainState): (FetchLevel, FetchLevel, FetchLevel, FetchLevel)
  {
    (s.fetchPingLevel, s.fetchUserPreferencesLevel, s.fetchRealmLevel, s.fetchBootLevel)
  }

  /** The request action of a resource. */
  predicate IsRequestFor(a: Action, res: Resource)
  {
    match res
    case Ping => a.RequestPing?
    case UserPreferences => a.RequestUserPreferences?
    case Realms => a.RequestRealms?
    case Boot => a.RequestBoot?
  }

  /** The receive action of a resource. */
  predicate IsReceiveFor(a: Action, res: Resource)
  {
    match res
    case Ping => a.ReceivePing?
    case UserPreferences => a.ReceiveUserPreferences?
    case Realms => a.ReceiveRealms?
    case Boot => a.ReceiveBoot?
  }

  /** The receive action of a resource carries an error indicator. */
  predicate IsFailedReceiveFor(a: Action, res: Resource)
  {
    match res
    case Ping => a.ReceivePing? && !a.ping
    case UserPreferences => a.ReceiveUserPreferences? && a.preferences.error.Some?
    case Realms => a.ReceiveRealms? && (a.realms.None? || |a.realms.value| == 0)
    case Boot => a.ReceiveBoot? && a.boot.None?
  }

  /** An upstream change that prompts a new fetch of the resource: a region change or a boot, for realms. */
  predicate PromptsFetch(a: Action, res: Resource)
  {
    res == Realms && (a.RegionChange? || (a.ReceiveBoot? && a.boot.Some?))
  }

  /**
   * The machine: a request moves to fetching, a receive to failure on an error
   * indicator and to success otherwise, a prompting change to prompted, and
   * every other action leaves the level alone. No transition looks at the
   * level it starts from.
   */
  ghost predicate Step(res: Resource, a: Action, before: FetchLevel, after: FetchLevel)
  {
    if IsRequestFor(a, res) then after == Fetching
    else if IsReceiveFor(a, res) then after == (if IsFailedReceiveFor(a, res) then Failure else Success)
    else if PromptsFetch(a, res) then after == Prompted
    else after == before
  }

  /** The reducer moves every resource's level by a step of the machine. */
  lemma MainFollowsLifecycle(s: MainState, a: Action, res: Resource)
    requires Admissible(Some(s), a)
    ensures Step(res, a, LevelOf(s, res), LevelOf(Main(Some(s), a), res))
  {
    match a
    case ReceiveRealms(payload) => ReceiveRealmsLevels(s, payload);
    case ReceiveBoot(payload) => ReceiveBootLevels(s, payload);
    case RequestPing => PingAndPreferencesLevels(s, a);
    case ReceivePing(_) => PingAndPreferencesLevels(s, a);
    case RequestUserPreferences => PingAndPreferencesLevels(s, a);
    case ReceiveUserPreferences(_) => PingAndPreferencesLevels(s, a);
    case RegionChange(_) => RealmAndBootRequestLevels(s, a);
    case RequestRealms => RealmAndBootRequestLevels(s, a);
    case RequestBoot => RealmAndBootRequestLevels(s, a);
    case _ => LevelsUntouched(s, a);
  }

  /** A realm receive moves only the realm level, to failure or success. */
  lemma ReceiveRealmsLevels(s: MainState, payload: Option<seq<Realm>>)
    requires Admissible(Some(s), ReceiveRealms(payload))
    ensures LevelsOf(Main(Some(s), ReceiveRealms(payload))) == LevelsOf(s.(fetchRealmLevel :=
      if payload.None? || |payload.value| == 0 then Failure else Success))
  {
  }

  /** A boot receive moves the boot level to failure or success and, on success, prompts the realm fetch. */
  lemma ReceiveBootLevels(s: MainState, payload: Option<BootPayload>)
    requires Admissible(Some(s), ReceiveBoot(payload))
    ensures LevelsOf(Main(Some(s), ReceiveBoot(payload))) ==
      if payload.None? then LevelsOf(s.(fetchBootLevel := Failure))
      else LevelsOf(s.(fetchBootLevel := Success, fetchRealmLevel := Prompted))
  {
  }

  /** The ping and preferences actions move only their own level. */
  lemma PingAndPreferencesLevels(s: MainState, a: Action)
    requires a.RequestPing? || a.ReceivePing? || a.RequestUserPreferences? || a.ReceiveUserPreferences?
    ensures LevelsOf(Main(Some(s), a)) ==
      match a
      case RequestPing => LevelsOf(s.(fetchPingLevel := Fetching))
      case ReceivePing(ping) => LevelsOf(s.(fetchPingLevel := if ping then Success else Failure))
      case RequestUserPreferences => LevelsOf(s.(fetchUserPreferencesLevel := Fetching))
      case ReceiveUserPreferences(p) =>
        LevelsOf(s.(fetchUserPreferencesLevel := if p.error.Some? then Failure else Success))
  {
  }

  /** A region change prompts the realm fetch; the realm and boot requests move their own level. */
  lemma RealmAndBootRequestLevels(s: MainState, a: Action)
    requires a.RegionChange? || a.RequestRealms? || a.RequestBoot?
    ensures LevelsOf(Main(Some(s), a)) ==
      match a
      case RegionChange(_) => LevelsOf(s.(fetchRealmLevel := Prompted))
      case RequestRealms => LevelsOf(s.(fetchRealmLevel := Fetching))
      case RequestBoot => LevelsOf(s.(fetchBootLevel := Fetching))
  {
  }

  /** The auth, profile, realm-change, dialog and unrecognised actions touch no level. */
  lemma LevelsUntouched(s: MainState, a: Action)
    requires Admissible(Some(s), a)
    requires a.UserRegister? || a.UserLogin? || a.ReceiveUserReload? || a.ChangeAuthLevel?
          || a.RealmChange? || a.ChangeIsLoginDialogOpen? || a.Unrecognised?
    ensures LevelsOf(Main(Some(s), a)) == LevelsOf(s)
  {
  }

  /** A level becomes fetching only through its own request. */
  lemma {:induction false} FetchingOnlyByRequest(s: MainState, a: Action, res: Resource)
    requires Admissible(Some(s), a)
    requires LevelOf(s, res) != Fetching
    requires LevelOf(Main(Some(s), a), res) == Fetching
    ensures IsRequestFor(a, res)
  {
    MainFollowsLifecycle(s, a, res);
  }

  /** A level leaves fetching only through its own receive or a prompting change. */
  lemma {:induction false} LeavingFetching(s: MainState, a: Action, res: Resource)
    requires Admissible(Some(s), a)
    requires LevelOf(s, res) == Fetching
    requires LevelOf(Main(Some(s), a), res) != Fetching
    ensures IsReceiveFor(a, res) || PromptsFetch(a, res)
    ensures IsReceiveFor(a, res) ==> LevelOf(Main(Some(s), a), res) in {Success, Failure}
  {
    MainFollowsLifecycle(s, a, res);
  }

  /**
   * The reducer never looks at the level it replaces: a receive with no
   * request before it still moves an initial level straight to success.
   */
  lemma ReceiveWithoutRequest()
    ensures LevelOf(DefaultMainState, Ping) == FetchLevel.Initial
    ensures LevelOf(Main(Some(DefaultMainState), ReceivePing(true)), Ping) == Success
  {
  }
}
