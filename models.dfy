/**
 * The records of src/common/models.ts that the modelled code reads and writes.
 * Optional and nullable fields are `Option`s; a number the code tests with
 * `Number.isNaN` is a `Num`.
 */
module Models {
  import opened Wrappers

  /** A JavaScript number read from a form control: an integer or NaN. */
  datatype Num = Int(value: int) | NaN

  datatype StartOrEnd = Start | End

  /** The four window keys of `AppWindow`. */
  datatype AppWindow = MainWindow | WorkListWindow | JmottoWindow | FreeeWindow

  /** `BoundsConfig.Bounds`: a position and an optional size. */
  datatype Bounds = Bounds(x: int, y: int, width: Option<int>, height: Option<int>)

  /** A work record; the hours are exact reals. */
  datatype WorkRecord = WorkRecord(
    id: Option<int>,
    date: string,
    workingHours: real,
    categoryId: Num,
    workProcessDetailId: Num,
    boardId: Option<Num>,
    boardDetail: string,
    comment: string,
    startDateTime: string,
    endDateTime: string)

  datatype Holiday = Holiday(date: string, name: string)

  /** `WorkConfig`: the record being worked on and whether the user is at work. */
  datatype WorkConfig = WorkConfig(isWorking: bool, record: WorkRecord)

  datatype JmottoConfig = JmottoConfig(useJmotto: bool, memberId: string, userId: string, password: string, icalPassword: string)
  datatype FreeeConfig = FreeeConfig(useFreee: bool, email: string, password: string)
  datatype AchievementConfig = AchievementConfig(email: string, password: string)
  datatype CalendarConfig = CalendarConfig(useDefaultIcon: bool, smile: real, uncomfortable: real, frustrated: real, mad: real, skull: real)
  datatype WindowSetting = WindowSetting(alwaysOnTop: bool, useDefaultWindowSize: bool, zoomSlider: int)
  datatype ColorConfig = ColorConfig(useDefaultMainColor: bool, mainHueSlider: int, useDefaultIconColor: bool, iconHueSlider: int)
  datatype WorkInfoPanelConfig = WorkInfoPanelConfig(maxBoardListCount: int)

  /** The seven sections the settings dialog edits. */
  datatype UserConfig = UserConfig(
    jmotto: JmottoConfig,
    freee: FreeeConfig,
    achievement: AchievementConfig,
    calendar: CalendarConfig,
    windowSetting: WindowSetting,
    color: ColorConfig,
    workInfoPanel: WorkInfoPanelConfig)

  datatype AppNotification = AppNotification(id: int, time: string, title: string, message: string, link: string)

  /** A notification from the editor; a new one has no id yet. */
  datatype UnsavedNotification = UnsavedNotification(id: Option<int>, time: string, title: string, message: string, link: string)

  /**
   * `AppConfig`: the user sections and the application state. `bounds` is `None`
   * when the loaded file has no `bounds` object; a window missing from the map
   * has no stored bounds.
   */
  datatype AppConfig = AppConfig(
    user: UserConfig,
    work: WorkConfig,
    workComments: seq<string>,
    notifications: seq<AppNotification>,
    bounds: Option<map<AppWindow, Bounds>>)

  /** A schedule entry's `type`: the three the code names, and anything else the data may hold. */
  datatype ScheduleType = Act | Notify | Event | OtherType(name: string)

  datatype Schedule = Schedule(kind: ScheduleType, time: string, title: string, id: Option<int>)

  /** The payload of the `'error'` event the automation emits. */
  datatype ErrorDetail = ErrorDetail(message: string, functionName: string, startOrEnd: Option<StartOrEnd>)

  datatype WorkProcessDetail = WorkProcessDetail(id: int, name: string)
  datatype WorkProcess = WorkProcess(id: int, name: string, details: seq<WorkProcessDetail>)
  datatype Category = Category(id: int, name: string)
}
