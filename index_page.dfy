/**
 * The main window logic of src/renderer/index.ts that is not DOM wiring: the
 * main colour (`getHslColor`, `setMainColor`) and the start/end transition of
 * the work record (`startOrEndWork`). The clock readings and the elapsed-hours
 * figure of the end transition are parameters.
 */
module IndexPage {
  import opened Wrappers
  import opened Text
  import opened Models
  import opened TwUtility

  /** The lightness chosen by the hue interval; earlier intervals win. */
  function Lightness(hue: int): (l: int)
    ensures l in {59, 64, 69, 75, 79}
  {
    if 217 < hue < 280 then 79
    else if 210 < hue < 300 then 75
    else if 205 < hue < 315 then 69
    else if 200 < hue < 335 then 64
    else 59
  }

  /**
   * The intervals are nested, so each lightness level is reached exactly on its
   * own interval: the closer the hue to the middle band, the lighter.
   */
  lemma LightnessBands(hue: int)
    ensures Lightness(hue) == 79 <==> 217 < hue < 280
    ensures Lightness(hue) >= 75 <==> 210 < hue < 300
    ensures Lightness(hue) >= 69 <==> 205 < hue < 315
    ensures Lightness(hue) >= 64 <==> 200 < hue < 335
    ensures Lightness(hue) == 59 <==> hue <= 200 || 335 <= hue
  {
  }

  /** `getHslColor(hue)`. */
  function HslColor(hue: int): string {
    "hsl(" + IntToString(hue) + ", 100%, " + IntToString(Lightness(hue)) + "%)"
  }

  const DefaultMainColor: string := "hsl(190, 100%, 49%, 1)"

  /** The value `setMainColor` gives `--color-UI-main`. */
  function MainColor(useDefaultColor: bool, hue: int): string {
    if useDefaultColor then DefaultMainColor else HslColor(hue)
  }

  /** The default flag fixes the colour whatever the hue; otherwise the colour names the hue and its lightness. */
  lemma MainColorChoice(useDefaultColor: bool, hue: int, hue': int)
    ensures useDefaultColor ==> MainColor(useDefaultColor, hue) == MainColor(useDefaultColor, hue') == DefaultMainColor
    ensures !useDefaultColor ==> MainColor(useDefaultColor, hue) == "hsl(" + IntToString(hue) + ", 100%, " + IntToString(Lightness(hue)) + "%)"
  {
  }

  /** What `workInfoPanel.getCurrentInfo()` reports. */
  datatype PanelInfo = PanelInfo(categoryId: Num, workProcessDetailId: Num, boardId: Option<Num>, boardDetail: string, comment: string)

  /** A clock reading: `toDateString()`, `toISOString()` and `getHours()` of one instant. */
  datatype Instant = Instant(date: string, iso: string, hour: int)

  /** The request sent to the main process, with the work record as sent. */
  datatype WorkCall = StartWork(usePunchIn: bool, work: WorkConfig) | EndWork(usePunchIn: bool, work: WorkConfig)

  /** The effect of one `startOrEndWork` call. */
  datatype Step = Step(
    work: WorkConfig,
    warning: Option<string>,
    call: Option<WorkCall>,
    /** The new texts of the punch-in and start/end buttons. */
    labels: Option<(string, string)>)

  const FreeeWarning: string := "Freee情報が登録されていません。"
  const JmottoWarning: string := "Jmotto情報が登録されていません。"
  const CategoryWarning: string := "分類を選択してください。"
  const DetailWarning: string := "詳細を選択してください。"
  const BoardWarning: string := "業務内容を選択してください。"

  predicate FreeeIncomplete(c: FreeeConfig) {
    c.useFreee && (IsNullOrWhiteSpace(Some(c.email)) || IsNullOrWhiteSpace(Some(c.password)))
  }

  predicate JmottoIncomplete(c: JmottoConfig) {
    c.useJmotto && (IsNullOrWhiteSpace(Some(c.memberId)) || IsNullOrWhiteSpace(Some(c.userId)) || IsNullOrWhiteSpace(Some(c.password)))
  }

  /** The panel's fields copied into the live record. */
  function WithPanel(r: WorkRecord, p: PanelInfo): WorkRecord {
    r.(categoryId := p.categoryId, workProcessDetailId := p.workProcessDetailId, boardId := p.boardId,
       boardDetail := p.boardDetail, comment := p.comment)
  }

  /** `Number.isNaN`, which is false for `undefined`. */
  predicate IsNaN(n: Option<Num>) {
    n == Some(NaN)
  }

  /**
   * The hours of a finished work: the measured figure, one hour less when the
   * work started before noon and ended at one or later.
   */
  function WorkedHours(measured: real, startHour: int, endHour: int): real {
    if startHour < 12 && endHour >= 13 then measured - 1.0 else measured
  }

  /**
   * `startOrEndWork(usePunchIn)` on the stored state: `now` is the reading
   * taken by the call, `start` the reading of the stored start time, and
   * `measured` the elapsed-hours figure rounded down to a tenth.
   */
  function StartOrEndWork(jmotto: JmottoConfig, freee: FreeeConfig, work: WorkConfig, usePunchIn: bool,
                          panel: PanelInfo, now: Instant, start: Instant, measured: real): Step
  {
    if usePunchIn && FreeeIncomplete(freee) then Step(work, Some(FreeeWarning), None, None)
    else if usePunchIn && JmottoIncomplete(jmotto) then Step(work, Some(JmottoWarning), None, None)
    else
      var copied := work.(record := WithPanel(work.record, panel));
      if !work.isWorking then
        var started := WorkConfig(true, copied.record.(date := now.date, workingHours := 0.0,
                                                      startDateTime := now.iso, endDateTime := ""));
        Step(started, None, Some(StartWork(usePunchIn, started)), Some(("退勤", "end")))
      else if copied.record.categoryId == NaN then Step(copied, Some(CategoryWarning), None, None)
      else if copied.record.workProcessDetailId == NaN then Step(copied, Some(DetailWarning), None, None)
      else if IsNaN(copied.record.boardId) then Step(copied, Some(BoardWarning), None, None)
      else
        var ended := WorkConfig(false, copied.record.(date := start.date, workingHours := WorkedHours(measured, start.hour, now.hour),
                                                     startDateTime := start.iso, endDateTime := now.iso));
        Step(ended, None, Some(EndWork(usePunchIn, ended)), Some(("出勤", "Start")))
  }

  /** With punch-in on and a portal's credentials incomplete, the call warns and changes nothing. */
  lemma PunchInGuard(jmotto: JmottoConfig, freee: FreeeConfig, work: WorkConfig, usePunchIn: bool,
                     panel: PanelInfo, now: Instant, start: Instant, measured: real)
    requires usePunchIn && (FreeeIncomplete(freee) || JmottoIncomplete(jmotto))
    ensures var s := StartOrEndWork(jmotto, freee, work, usePunchIn, panel, now, start, measured);
      && s.work == work && s.call.None? && s.labels.None?
      && s.warning == Some(if FreeeIncomplete(freee) then FreeeWarning else JmottoWarning)
  {
  }

  /** Past the punch-in guards the panel's fields are in the record, even when an end guard stops the call. */
  lemma PanelAlwaysCopied(jmotto: JmottoConfig, freee: FreeeConfig, work: WorkConfig, usePunchIn: bool,
                          panel: PanelInfo, now: Instant, start: Instant, measured: real)
    requires !usePunchIn || (!FreeeIncomplete(freee) && !JmottoIncomplete(jmotto))
    ensures var r := StartOrEndWork(jmotto, freee, work, usePunchIn, panel, now, start, measured).work.record;
      && r.categoryId == panel.categoryId && r.workProcessDetailId == panel.workProcessDetailId
      && r.boardId == panel.boardId && r.boardDetail == panel.boardDetail && r.comment == panel.comment
  {
  }

  /** Starting: working, no hours, no end time, started now, and the start request carries the new record. */
  lemma StartTransition(jmotto: JmottoConfig, freee: FreeeConfig, work: WorkConfig, usePunchIn: bool,
                        panel: PanelInfo, now: Instant, start: Instant, measured: real)
    requires !usePunchIn || (!FreeeIncomplete(freee) && !JmottoIncomplete(jmotto))
    requires !work.isWorking
    ensures var s := StartOrEndWork(jmotto, freee, work, usePunchIn, panel, now, start, measured);
      && s.work.isWorking && s.work.record.workingHours == 0.0 && s.work.record.endDateTime == ""
      && s.work.record.startDateTime == now.iso && s.work.record.date == now.date
      && s.call == Some(StartWork(usePunchIn, s.work)) && s.warning.None?
  {
  }

  /**
   * Ending checks category, then detail, then board; the first NaN warns and
   * the work stays in progress. An absent board passes.
   */
  lemma EndGuards(jmotto: JmottoConfig, freee: FreeeConfig, work: WorkConfig, usePunchIn: bool,
                  panel: PanelInfo, now: Instant, start: Instant, measured: real)
    requires !usePunchIn || (!FreeeIncomplete(freee) && !JmottoIncomplete(jmotto))
    requires work.isWorking
    ensures var s := StartOrEndWork(jmotto, freee, work, usePunchIn, panel, now, start, measured);
      && (s.call.None? <==> panel.categoryId == NaN || panel.workProcessDetailId == NaN || panel.boardId == Some(NaN))
      && (s.call.None? ==> s.work.isWorking && s.labels.None?)
      && (panel.categoryId == NaN ==> s.warning == Some(CategoryWarning))
      && (panel.categoryId != NaN && panel.workProcessDetailId == NaN ==> s.warning == Some(DetailWarning))
      && (panel.categoryId != NaN && panel.workProcessDetailId != NaN && panel.boardId == Some(NaN) ==> s.warning == Some(BoardWarning))
  {
  }

  /** Ending: not working, the hours with the lunch hour taken off exactly when the work spans it, and the end request. */
  lemma EndTransition(jmotto: JmottoConfig, freee: FreeeConfig, work: WorkConfig, usePunchIn: bool,
                      panel: PanelInfo, now: Instant, start: Instant, measured: real)
    requires !usePunchIn || (!FreeeIncomplete(freee) && !JmottoIncomplete(jmotto))
    requires work.isWorking && panel.categoryId != NaN && panel.workProcessDetailId != NaN && panel.boardId != Some(NaN)
    ensures var s := StartOrEndWork(jmotto, freee, work, usePunchIn, panel, now, start, measured);
      && !s.work.isWorking && s.call == Some(EndWork(usePunchIn, s.work))
      && s.work.record.endDateTime == now.iso && s.work.record.date == start.date
      && (s.work.record.workingHours == measured - 1.0 <==> start.hour < 12 && now.hour >= 13)
      && (s.work.record.workingHours == measured <==> !(start.hour < 12 && now.hour >= 13))
  {
  }

  /** The renderer state `startOrEndWork` updates. */
  class WorkController {
    var jmotto: JmottoConfig
    var freee: FreeeConfig
    var work: WorkConfig
    var punchInLabel: string
    var startOrEndLabel: string
    var warnings: seq<string>
    var calls: seq<WorkCall>
    /** How many `workChanged` events were triggered. */
    var workChanged: nat

    constructor(jmotto: JmottoConfig, freee: FreeeConfig, work: WorkConfig)
      ensures this.jmotto == jmotto && this.freee == freee && this.work == work
      ensures warnings == [] && calls == [] && workChanged == 0
    {
      this.jmotto := jmotto;
      this.freee := freee;
      this.work := work;
      punchInLabel := "";
      startOrEndLabel := "";
      warnings := [];
      calls := [];
      workChanged := 0;
    }

    /** `startOrEndWork`: the step is applied to the live record, the buttons, the dialog and the requests. */
    method Run(usePunchIn: bool, panel: PanelInfo, now: Instant, start: Instant, measured: real)
      modifies this
      ensures var s := StartOrEndWork(old(jmotto), old(freee), old(work), usePunchIn, panel, now, start, measured);
        && work == s.work && jmotto == old(jmotto) && freee == old(freee)
        && warnings == old(warnings) + (if s.warning.Some? then [s.warning.value] else [])
        && calls == old(calls) + (if s.call.Some? then [s.call.value] else [])
        && workChanged == old(workChanged) + (if s.call.Some? then 1 else 0)
        && (s.labels.Some? ==> punchInLabel == s.labels.value.0 && startOrEndLabel == s.labels.value.1)
        && (s.labels.None? ==> punchInLabel == old(punchInLabel) && startOrEndLabel == old(startOrEndLabel))
    {
      if usePunchIn {
        if FreeeIncomplete(freee) {
          warnings := warnings + [FreeeWarning];
          return;
        }
        if JmottoIncomplete(jmotto) {
          warnings := warnings + [JmottoWarning];
          return;
        }
      }
      work := work.(record := WithPanel(work.record, panel));
      if !work.isWorking {
        work := WorkConfig(true, work.record.(date := now.date, workingHours := 0.0, startDateTime := now.iso, endDateTime := ""));
        calls := calls + [StartWork(usePunchIn, work)];
        punchInLabel, startOrEndLabel := "退勤", "end";
        workChanged := workChanged + 1;
      } else {
        if work.record.categoryId == NaN {
          warnings := warnings + [CategoryWarning];
          return;
        }
        if work.record.workProcessDetailId == NaN {
          warnings := warnings + [DetailWarning];
          return;
        }
        if IsNaN(work.record.boardId) {
          warnings := warnings + [BoardWarning];
          return;
        }
        var workingHours := measured;
        if start.hour < 12 && now.hour >= 13 {
          workingHours := workingHours - 1.0;
        }
        work := WorkConfig(false, work.record.(date := start.date, workingHours := workingHours,
                                               startDateTime := start.iso, endDateTime := now.iso));
        calls := calls + [EndWork(usePunchIn, work)];
        punchInLabel, startOrEndLabel := "出勤", "Start";
        workChanged := workChanged + 1;
      }
    }
  }
}
