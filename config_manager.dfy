/**
 * The main process's configuration store (src/main/configManager.ts). Writing
 * config.json is the abstract `Persist`, whose success is an oracle; what the
 * file holds after a successful write is the configuration at that moment.
 */
module ConfigManager {
  import opened Wrappers
  import opened Models

  /** The position `getBounds` answers for a window with nothing stored. */
  const DefaultBounds: Bounds := Bounds(100, 100, None, None)

  const DefaultNotifications: seq<AppNotification> := [
    AppNotification(1, "10:00", "朝礼", "10時になりました", ""),
    AppNotification(2, "12:00", "lunch time", "12時になりました", ""),
    AppNotification(3, "17:45", "夕礼", "17時45分になりました", "")
  ]

  /** `defaultConfig`, which `loadConfig` falls back to when config.json cannot be read. */
  const DefaultConfig: AppConfig := AppConfig(
    UserConfig(
      JmottoConfig(false, "", "", "", ""),
      FreeeConfig(false, "", ""),
      AchievementConfig("", ""),
      CalendarConfig(true, 8.0, 8.1, 8.3, 8.5, 9.0),
      WindowSetting(false, true, 100),
      ColorConfig(true, 158, false, 360),
      WorkInfoPanelConfig(10)),
    WorkConfig(false, WorkRecord(None, "", 0.0, Int(1), Int(1), None, "", "", "", "")),
    ["社内会議", "顧客会議", "差込依頼", "調査依頼", "不具合"],
    DefaultNotifications,
    Some(map[MainWindow := DefaultBounds, WorkListWindow := DefaultBounds,
             JmottoWindow := DefaultBounds, FreeeWindow := DefaultBounds]))

  /** What `saveConfig` returns: `undefined` after the write, `{ error }` when it fails. */
  datatype SaveResult = Saved | SaveFailed

  /** `getBounds(window)`: the stored bounds, or `{ x: 100, y: 100 }`. */
  function BoundsOf(c: AppConfig, window: AppWindow): (b: Bounds)
    ensures c.bounds.Some? && window in c.bounds.value ==> b == c.bounds.value[window]
    ensures c.bounds.None? || window !in c.bounds.value ==> b == DefaultBounds
  {
    if c.bounds.Some? && window in c.bounds.value then c.bounds.value[window] else DefaultBounds
  }

  /**
   * The assignment `this.config.bounds.<window> = bounds`; without a `bounds`
   * object it throws a TypeError.
   */
  function WithBounds(c: AppConfig, window: AppWindow, b: Bounds): (r: Result<AppConfig>)
    ensures r.Ok? <==> c.bounds.Some?
  {
    match c.bounds
    case None => Err("Cannot set properties of undefined")
    case Some(m) => Ok(c.(bounds := Some(m[window := b])))
  }

  /** Saved bounds are read back, and the other windows' bounds and the rest of the configuration stay. */
  lemma BoundsRoundTrip(c: AppConfig, window: AppWindow, b: Bounds, other: AppWindow)
    requires c.bounds.Some?
    ensures BoundsOf(WithBounds(c, window, b).value, window) == b
    ensures other != window ==> BoundsOf(WithBounds(c, window, b).value, other) == BoundsOf(c, other)
    ensures WithBounds(c, window, b).value.(bounds := c.bounds) == c
  {
  }

  /** The largest id in a non-empty list: `Math.max(...ids)`. */
  function MaxId(ns: seq<AppNotification>): (m: int)
    requires |ns| > 0
    ensures forall i :: 0 <= i < |ns| ==> ns[i].id <= m
    ensures exists i :: 0 <= i < |ns| && ns[i].id == m
    decreases |ns|
  {
    if |ns| == 1 then ns[0].id
    else
      var rest := MaxId(ns[1..]);
      assert forall i :: 1 <= i < |ns| ==> ns[i] == ns[1..][i - 1];
      if ns[0].id >= rest then ns[0].id else rest
  }

  /** `findIndex(x => x.id === id)`. */
  function FindIndex(ns: seq<AppNotification>, id: int): (r: Option<nat>)
    ensures r.Some? ==> r.value < |ns| && ns[r.value].id == id
    ensures r.Some? ==> forall j :: 0 <= j < r.value ==> ns[j].id != id
    ensures r.None? ==> forall j :: 0 <= j < |ns| ==> ns[j].id != id
    decreases |ns|
  {
    if |ns| == 0 then None
    else if ns[0].id == id then Some(0)
    else match FindIndex(ns[1..], id)
      case None => None
      case Some(i) => Some(i + 1)
  }

  /** The add branch of `saveNotification`: the new entry takes the largest id plus one and goes last. */
  function Added(ns: seq<AppNotification>, n: UnsavedNotification): (r: seq<AppNotification>)
    requires |ns| > 0
  {
    ns + [AppNotification(MaxId(ns) + 1, n.time, n.title, n.message, n.link)]
  }

  /** Adding appends one entry with a fresh id, larger than every existing one, and keeps the rest. */
  lemma AddedShape(ns: seq<AppNotification>, n: UnsavedNotification)
    requires |ns| > 0
    ensures var r := Added(ns, n);
      && |r| == |ns| + 1 && r[..|ns|] == ns
      && r[|ns|].time == n.time && r[|ns|].title == n.title && r[|ns|].message == n.message && r[|ns|].link == n.link
      && (forall i :: 0 <= i < |ns| ==> ns[i].id < r[|ns|].id)
      && FindIndex(r, r[|ns|].id) == Some(|ns|)
  {
    var r := Added(ns, n);
    var i := FindIndex(r, r[|ns|].id);
  }

  /**
   * The update branch: the first entry with the same id takes the new time,
   * title, message and link. No such entry makes `find(...)!` undefined and the
   * assignment throw.
   */
  function Updated(ns: seq<AppNotification>, n: AppNotification): (r: Result<seq<AppNotification>>)
    ensures r.Ok? <==> FindIndex(ns, n.id).Some?
  {
    match FindIndex(ns, n.id)
    case None => Err("Cannot set properties of undefined")
    case Some(i) => Ok(ns[i := ns[i].(time := n.time, title := n.title, message := n.message, link := n.link)])
  }

  /** Updating keeps the length, every id and every other entry; the first match carries the new content. */
  lemma UpdatedShape(ns: seq<AppNotification>, n: AppNotification)
    requires FindIndex(ns, n.id).Some?
    ensures var r := Updated(ns, n).value; var i := FindIndex(ns, n.id).value;
      && |r| == |ns|
      && (forall j :: 0 <= j < |ns| ==> r[j].id == ns[j].id)
      && (forall j :: 0 <= j < |ns| && j != i ==> r[j] == ns[j])
      && r[i] == n
  {
  }

  /** `splice(findIndex(...), 1)`, or nothing when no entry has the id. */
  function Deleted(ns: seq<AppNotification>, id: int): (r: Option<seq<AppNotification>>)
    ensures r.None? <==> FindIndex(ns, id).None?
  {
    match FindIndex(ns, id)
    case None => None
    case Some(i) => Some(ns[..i] + ns[i + 1..])
  }

  /** Deleting drops exactly the first entry with the id and keeps the others in order. */
  lemma DeletedShape(ns: seq<AppNotification>, id: int)
    requires FindIndex(ns, id).Some?
    ensures var r := Deleted(ns, id).value; var i := FindIndex(ns, id).value;
      && |r| == |ns| - 1
      && (forall j :: 0 <= j < i ==> r[j] == ns[j] && r[j].id != id)
      && (forall j :: i <= j < |r| ==> r[j] == ns[j + 1])
      && multiset(r) + multiset{ns[i]} == multiset(ns)
  {
    SpliceShape(ns, FindIndex(ns, id).value);
  }

  /** `splice(i, 1)` on a list: one entry fewer, the rest in order, and the entry at `i` is the one missing. */
  lemma SpliceShape<T>(s: seq<T>, i: nat)
    requires i < |s|
    ensures var r := s[..i] + s[i + 1..];
      && |r| == |s| - 1
      && (forall j :: 0 <= j < i ==> r[j] == s[j])
      && (forall j :: i <= j < |r| ==> r[j] == s[j + 1])
      && multiset(r) + multiset{s[i]} == multiset(s)
  {
    assert s == s[..i] + [s[i]] + s[i + 1..];
  }

  /**
   * What `deleteNotification` hands the renderer: `undefined` when no entry had
   * the id, and otherwise what `saveConfig` returned, which is `undefined` too
   * after a successful write and `{ error }` after a failed one. `Bool` is the
   * boolean reply the renderer's `as boolean` cast expects.
   */
  datatype DeleteReply = Undefined | ErrorObject | Bool(b: bool)

  function DeleteReplyOf(found: bool, save: SaveResult): (r: DeleteReply)
    ensures r.ErrorObject? <==> found && save.SaveFailed?
    ensures !r.Bool?
  {
    if found && save.SaveFailed? then ErrorObject else Undefined
  }

  /**
   * The preload's `invoke` as the renderer awaits it: a reply with an `error`
   * field is thrown, so the promise rejects; any other reply is returned, and
   * the renderer's `if (succeed)` takes its truthiness.
   */
  function InvokeOutcome(r: DeleteReply): (o: Result<bool>)
    ensures o.Err? <==> r.ErrorObject?
    ensures r.Undefined? ==> o == Ok(false)
    ensures r.Bool? ==> o == Ok(r.b)
  {
    match r
    case ErrorObject => Err("error")
    case Undefined => Ok(false)
    case Bool(b) => Ok(b)
  }

  /** The renderer removes its own copy only when `invoke` resolved to a truthy value. */
  predicate RendererDeletesLocally(r: DeleteReply) {
    InvokeOutcome(r) == Ok(true)
  }

  /**
   * As written, the renderer never removes its copy: after a successful delete
   * the reply is `undefined`, and after a failed write `invoke` throws before
   * the renderer's test runs.
   */
  lemma DeleteNeverSucceeds(found: bool, save: SaveResult)
    ensures !RendererDeletesLocally(DeleteReplyOf(found, save))
    ensures InvokeOutcome(DeleteReplyOf(found, save)).Err? <==> found && save == SaveFailed
    ensures InvokeOutcome(DeleteReplyOf(true, Saved)) == Ok(false)
  {
  }

  /** The reply the renderer's test expects: true exactly when the entry was removed and saved. */
  function IntendedDeleteReply(found: bool, save: SaveResult): (r: bool)
    ensures r <==> found && save == Saved
  {
    found && save == Saved
  }

  /**
   * With the intended reply, `invoke` never throws, and the renderer removes its
   * copy exactly when the stored list lost the entry and was saved.
   */
  lemma IntendedDeleteReplyAgrees(ns: seq<AppNotification>, id: int, save: SaveResult)
    ensures var reply := Bool(IntendedDeleteReply(Deleted(ns, id).Some?, save));
      && InvokeOutcome(reply).Ok?
      && (RendererDeletesLocally(reply) <==> Deleted(ns, id).Some? && save == Saved)
    ensures IntendedDeleteReply(Deleted(ns, id).Some?, save) ==> Deleted(ns, id).value != ns
  {
    if Deleted(ns, id).Some? {
      DeletedShape(ns, id);
    }
  }

  class ConfigStore {
    /** `this.config`. */
    var config: AppConfig
    /** The configuration config.json holds; `None` when it has never been written. */
    var file: Option<AppConfig>

    /** `new ConfigManager(folderPath)`: `stored` is what `loadConfig` could parse, if anything. */
    constructor(stored: Option<AppConfig>)
      ensures config == stored.GetOr(DefaultConfig) && file == stored
    {
      config := stored.GetOr(DefaultConfig);
      file := stored;
    }

    /** `saveConfig(this.config, this.configFilePath)`. */
    method Persist(writeOk: bool) returns (r: SaveResult)
      modifies this
      ensures config == old(config)
      ensures file == if writeOk then Some(config) else old(file)
      ensures r == if writeOk then Saved else SaveFailed
    {
      if writeOk {
        file := Some(config);
        r := Saved;
      } else {
        r := SaveFailed;
      }
    }

    function GetBounds(window: AppWindow): (b: Bounds)
      reads this
      ensures b == BoundsOf(config, window)
    {
      BoundsOf(config, window)
    }

    /** `saveBounds(window, bounds)`: a TypeError, before any write, when there is no `bounds` object. */
    method SaveBounds(window: AppWindow, b: Bounds, writeOk: bool) returns (r: Result<SaveResult>)
      modifies this
      ensures WithBounds(old(config), window, b).Err? ==> r.Err? && config == old(config) && file == old(file)
      ensures WithBounds(old(config), window, b).Ok? ==>
        && config == WithBounds(old(config), window, b).value
        && GetBounds(window) == b
        && file == (if writeOk then Some(config) else old(file))
        && r == Ok(if writeOk then Saved else SaveFailed)
    {
      var next := WithBounds(config, window, b);
      if next.Err? {
        return Err(next.message);
      }
      config := next.value;
      BoundsRoundTrip(old(config), window, b, window);
      var saved := Persist(writeOk);
      r := Ok(saved);
    }

    /**
     * `saveNotification(notification)`: a new entry (no id) gets the next id and
     * is appended; an existing one overwrites its first match. The write's outcome
     * is ignored and the saved notification is returned. `Math.max()` of no ids is
     * `-Infinity`, so adding needs a non-empty list.
     */
    method SaveNotification(n: UnsavedNotification, writeOk: bool) returns (r: Result<AppNotification>)
      requires n.id.None? ==> |config.notifications| > 0
      modifies this
      ensures n.id.None? ==>
        && config == old(config).(notifications := Added(old(config.notifications), n))
        && r == Ok(config.notifications[|config.notifications| - 1])
        && file == (if writeOk then Some(config) else old(file))
      ensures n.id.Some? ==>
        var u := AppNotification(n.id.value, n.time, n.title, n.message, n.link);
        match Updated(old(config.notifications), u)
        case Err(e) => r == Err(e) && config == old(config) && file == old(file)
        case Ok(ns) =>
          && config == old(config).(notifications := ns)
          && r == Ok(u)
          && file == (if writeOk then Some(config) else old(file))
    {
      if n.id.None? {
        config := config.(notifications := Added(config.notifications, n));
        var _ := Persist(writeOk);
        r := Ok(config.notifications[|config.notifications| - 1]);
      } else {
        var u := AppNotification(n.id.value, n.time, n.title, n.message, n.link);
        var next := Updated(config.notifications, u);
        if next.Err? {
          return Err(next.message);
        }
        config := config.(notifications := next.value);
        var _ := Persist(writeOk);
        r := Ok(u);
      }
    }

    /**
     * `deleteNotification(id)`: nothing changes and nothing is written for an
     * unknown id; otherwise the entry is spliced out and the config saved. The
     * reply is `undefined` or `saveConfig`'s error object.
     */
    method DeleteNotification(id: int, writeOk: bool) returns (r: DeleteReply)
      modifies this
      ensures Deleted(old(config.notifications), id).None? ==> config == old(config) && file == old(file)
      ensures Deleted(old(config.notifications), id).Some? ==>
        && config == old(config).(notifications := Deleted(old(config.notifications), id).value)
        && file == (if writeOk then Some(config) else old(file))
      ensures r == DeleteReplyOf(Deleted(old(config.notifications), id).Some?, if writeOk then Saved else SaveFailed)
    {
      var next := Deleted(config.notifications, id);
      if next.None? {
        return Undefined;
      }
      config := config.(notifications := next.value);
      var saved := Persist(writeOk);
      r := DeleteReplyOf(true, saved);
    }

    /** `saveUserConfig`: the seven user sections are replaced; work, comments, notifications and bounds stay. */
    method SaveUserConfig(u: UserConfig, writeOk: bool) returns (r: SaveResult)
      modifies this
      ensures config == old(config).(user := u)
      ensures config.work == old(config.work) && config.workComments == old(config.workComments)
      ensures config.notifications == old(config.notifications) && config.bounds == old(config.bounds)
      ensures file == (if writeOk then Some(config) else old(file))
      ensures r == if writeOk then Saved else SaveFailed
    {
      config := config.(user := u);
      r := Persist(writeOk);
    }

    /** `saveAchievementConfig`: only the achievement e-mail and password change. */
    method SaveAchievementConfig(email: string, password: string, writeOk: bool) returns (r: SaveResult)
      modifies this
      ensures config == old(config).(user := old(config.user).(achievement := AchievementConfig(email, password)))
      ensures file == (if writeOk then Some(config) else old(file))
      ensures r == if writeOk then Saved else SaveFailed
    {
      config := config.(user := config.user.(achievement := AchievementConfig(email, password)));
      r := Persist(writeOk);
    }

    /** `saveWork(work)`: only `config.work` changes. */
    method SaveWork(work: WorkConfig, writeOk: bool) returns (r: SaveResult)
      modifies this
      ensures config == old(config).(work := work)
      ensures file == (if writeOk then Some(config) else old(file))
      ensures r == if writeOk then Saved else SaveFailed
    {
      config := config.(work := work);
      r := Persist(writeOk);
    }
  }

  /** The module-level `configManager` variable behind `initialize` and `getInstance`. */
  class Registry {
    var instance: Option<ConfigStore>

    constructor()
      ensures instance.None?
    {
      instance := None;
    }

    /** `ConfigManager.initialize(folderPath)`: a new store replaces any earlier one. */
    method Initialize(stored: Option<AppConfig>) returns (m: ConfigStore)
      modifies this
      ensures fresh(m) && instance == Some(m)
      ensures m.config == stored.GetOr(DefaultConfig)
    {
      m := new ConfigStore(stored);
      instance := Some(m);
    }

    /** `ConfigManager.getInstance()`: throws until `initialize` has run. */
    method GetInstance() returns (r: Result<ConfigStore>)
      ensures instance.None? ==> r == Err("ConfigManger is not initialized yet.")
      ensures instance.Some? ==> r == Ok(instance.value)
    {
      if instance.None? {
        return Err("ConfigManger is not initialized yet.");
      }
      r := Ok(instance.value);
    }
  }
}
