/**
 * The board-detail helpers and id lookups of src/renderer/appSettings.ts. The
 * category and work-process lists `initialize` loads through the API are
 * parameters.
 */
module AppSettings {
  import opened Wrappers
  import opened Text
  import opened Models
  import TwUtility

  /** `getProjectName`: blank input gives `''`, otherwise the text before the first comma. */
  function GetProjectName(boardDetail: string): (r: string)
    ensures IsBlank(boardDetail) ==> r == ""
    ensures !IsBlank(boardDetail) ==>
      && r <= boardDetail && ',' !in r
      && (|r| == |boardDetail| || boardDetail[|r|] == ',')
  {
    if TwUtility.IsNullOrWhiteSpace(Some(boardDetail)) then ""
    else
      SplitFirstPiece(boardDetail, {','});
      Split(boardDetail, {','})[0]
  }

  /** The two parts `separateBoard` returns. */
  datatype Board = Board(projectName: string, boardInfo: string)

  /**
   * `separateBoard`: the first comma piece is shifted off as the project name;
   * the remaining pieces are joined with `", "` and trimmed.
   */
  method SeparateBoard(boardDetail: string) returns (r: Board)
    ensures IsBlank(boardDetail) ==> r == Board("", "")
    ensures !IsBlank(boardDetail) ==>
      && r.projectName == GetProjectName(boardDetail)
      && r.boardInfo == Trim(Join(Split(boardDetail, {','})[1..], ", "))
  {
    if TwUtility.IsNullOrWhiteSpace(Some(boardDetail)) {
      return Board("", "");
    }
    var boardParts := Split(boardDetail, {','});
    var projectName := boardParts[0];
    boardParts := boardParts[1..];
    var boardInfo := Trim(Join(boardParts, ", "));
    r := Board(projectName, boardInfo);
  }

  /**
   * The two parts put back together: the project name, a comma and the remaining
   * pieces comma-joined give the input; without a comma there is no board
   * information.
   */
  lemma BoardParts(boardDetail: string)
    requires !IsBlank(boardDetail)
    ensures var pieces := Split(boardDetail, {','});
      && pieces[0] == GetProjectName(boardDetail)
      && (|pieces| > 1 ==> pieces[0] + "," + Join(pieces[1..], ",") == boardDetail)
      && (',' !in boardDetail ==> Trim(Join(pieces[1..], ", ")) == "")
  {
    var pieces := Split(boardDetail, {','});
    JoinSplit(boardDetail, ',');
    if ',' !in boardDetail {
      CountNone(boardDetail, {','});
      SplitNoSeparator(boardDetail, {','});
      assert pieces[1..] == [];
    }
  }

  /** The board information never starts or ends with white space. */
  lemma BoardInfoTrimmed(boardDetail: string)
    ensures var info := Trim(Join(Split(boardDetail, {','})[1..], ", "));
      info != [] ==> !IsWhiteSpace(info[0]) && !IsWhiteSpace(info[|info| - 1])
  {
    TrimShape(Join(Split(boardDetail, {','})[1..], ", "));
  }

  /** `categories.find(x => x.id == categoryId)`: the index of the first category with the id. */
  function FindCategory(categories: seq<Category>, categoryId: int): (r: Option<nat>)
    ensures r.Some? ==> r.value < |categories| && categories[r.value].id == categoryId
    ensures r.Some? ==> forall k :: 0 <= k < r.value ==> categories[k].id != categoryId
    ensures r.None? <==> forall k :: 0 <= k < |categories| ==> categories[k].id != categoryId
  {
    if categories == [] then None
    else if categories[0].id == categoryId then Some(0)
    else match FindCategory(categories[1..], categoryId)
      case None => None
      case Some(k) => Some(k + 1)
  }

  /** `getCategoryName`: the first matching category's name; no match throws. */
  function GetCategoryName(categories: seq<Category>, categoryId: int): (r: Result<string>)
    ensures r.Err? <==> forall k :: 0 <= k < |categories| ==> categories[k].id != categoryId
    ensures r.Err? ==> r.message == "invalid categoryId. id =[" + IntToString(categoryId) + "]"
    ensures r.Ok? ==> exists k :: (0 <= k < |categories| && categories[k].id == categoryId
      && r.value == categories[k].name && forall m :: 0 <= m < k ==> categories[m].id != categoryId)
  {
    match FindCategory(categories, categoryId)
    case None => Err("invalid categoryId. id =[" + IntToString(categoryId) + "]")
    case Some(k) => Ok(categories[k].name)
  }

  /** The first detail of a process's details with the id. */
  function FindDetail(details: seq<WorkProcessDetail>, id: int): (r: Option<nat>)
    ensures r.Some? ==> r.value < |details| && details[r.value].id == id
    ensures r.Some? ==> forall k :: 0 <= k < r.value ==> details[k].id != id
    ensures r.None? <==> forall k :: 0 <= k < |details| ==> details[k].id != id
  {
    if details == [] then None
    else if details[0].id == id then Some(0)
    else match FindDetail(details[1..], id)
      case None => None
      case Some(k) => Some(k + 1)
  }

  /** Whether some detail of the process has the id. */
  predicate HoldsDetail(p: WorkProcess, id: int) {
    exists k :: 0 <= k < |p.details| && p.details[k].id == id
  }

  /**
   * The process that `getWorkProcessName` names: the first in list order holding
   * a detail with the id, with that process's first such detail.
   */
  function FindWorkProcess(list: seq<WorkProcess>, id: int): (r: Option<(nat, nat)>)
    ensures r.Some? ==>
      && r.value.0 < |list| && r.value.1 < |list[r.value.0].details|
      && list[r.value.0].details[r.value.1].id == id
      && FindDetail(list[r.value.0].details, id) == Some(r.value.1)
    ensures r.Some? ==> forall k :: 0 <= k < r.value.0 ==> !HoldsDetail(list[k], id)
    ensures r.None? <==> forall k :: 0 <= k < |list| ==> !HoldsDetail(list[k], id)
  {
    if list == [] then None
    else match FindDetail(list[0].details, id)
      case Some(j) => Some((0, j))
      case None =>
        match FindWorkProcess(list[1..], id)
        case None => None
        case Some((i, j)) => Some((i + 1, j))
  }

  /** The name `getWorkProcessName` builds for a process and one of its details. */
  function ProcessDetailName(p: WorkProcess, d: WorkProcessDetail): string {
    p.name + "-" + d.name
  }

  /** A built name is never blank: it holds the dash. */
  lemma NameNotBlank(p: WorkProcess, d: WorkProcessDetail)
    ensures !IsBlank(ProcessDetailName(p, d))
  {
    assert ProcessDetailName(p, d)[|p.name|] == '-';
  }

  /**
   * `getWorkProcessName`: the nested loops stop at the first detail with the id;
   * the outer loop stops once the name is not blank. No match throws.
   */
  method GetWorkProcessName(workProcessList: seq<WorkProcess>, workProcessDetailId: int) returns (r: Result<string>)
    ensures FindWorkProcess(workProcessList, workProcessDetailId).None? ==>
      r == Err("invalid workProcessDetailId. id =[" + IntToString(workProcessDetailId) + "]")
    ensures FindWorkProcess(workProcessList, workProcessDetailId).Some? ==>
      var (i, j) := FindWorkProcess(workProcessList, workProcessDetailId).value;
      r == Ok(ProcessDetailName(workProcessList[i], workProcessList[i].details[j]))
  {
    var workProcessName: Option<string> := None;
    var i := 0;
    while i < |workProcessList|
      invariant 0 <= i <= |workProcessList|
      invariant workProcessName.None?
      invariant forall k :: 0 <= k < i ==> !HoldsDetail(workProcessList[k], workProcessDetailId)
      decreases |workProcessList| - i
    {
      var workProcess := workProcessList[i];
      var j := 0;
      while j < |workProcess.details|
        invariant 0 <= j <= |workProcess.details|
        invariant workProcessName.None?
        invariant forall k :: 0 <= k < j ==> workProcess.details[k].id != workProcessDetailId
        decreases |workProcess.details| - j
      {
        var detail := workProcess.details[j];
        if detail.id == workProcessDetailId {
          FirstHolderFound(workProcessList, workProcessDetailId, i, j);
          NameNotBlank(workProcess, detail);
          workProcessName := Some(ProcessDetailName(workProcess, detail));
          break;
        }
        j := j + 1;
      }
      if !TwUtility.IsNullOrWhiteSpace(workProcessName) {
        break;
      }
      i := i + 1;
    }
    if workProcessName.None? {
      return Err("invalid workProcessDetailId. id =[" + IntToString(workProcessDetailId) + "]");
    }
    r := Ok(workProcessName.value);
  }

  /** The first process holding the id, at its first detail with it, is what the lookup finds. */
  lemma FirstHolderFound(list: seq<WorkProcess>, id: int, i: nat, j: nat)
    requires i < |list| && j < |list[i].details| && list[i].details[j].id == id
    requires forall k :: 0 <= k < i ==> !HoldsDetail(list[k], id)
    requires forall k :: 0 <= k < j ==> list[i].details[k].id != id
    ensures FindWorkProcess(list, id) == Some((i, j))
  {
    assert HoldsDetail(list[i], id);
    var r := FindWorkProcess(list, id);
    assert r.Some?;
    assert HoldsDetail(list[r.value.0], id);
    assert r.value.0 == i;
  }
}
