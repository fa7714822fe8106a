/**
 * The rotation page (app/page.tsx): the forecast windowing that dates each
 * week from this week's Monday, the current-user label, and the two
 * handlers as atomic steps over the page state, with each request's outcome
 * and today's day number as inputs.
 */
module RotationPage {
  import opened RotationTypes
  import opened Shared
  import opened WeekDates

  const RotationFailedPrefix: string := "ローテーションデータの取得に失敗しました: "
  const MonthlyFailedPrefix: string := "月次ローテーションデータの取得に失敗しました: "
  const RotateFailedPrefix: string := "ローテーションの更新に失敗しました: "

  /** The confirmation shown when the server sends no usable message. */
  const DefaultRotatedMessage: string := "次の担当者に更新しました"

  /** The label shown when nobody is on duty. */
  const NobodyLabel: string := "なし"

  /** A forecast entry with the day its week starts. */
  datatype WeeklyRotation = WeeklyRotation(week: int, user: string, startDate: int)

  /** The body of the rotate reply; its `message` may be absent. */
  datatype RotateReply = RotateReply(message: Option<string>)

  /** What the content view shows: who is on duty, the dated forecast in order, and the snackbar. */
  datatype BoardView = BoardView(currentUser: string, forecast: seq<WeeklyRotation>, snackbar: Snackbar)

  // ---------------------------------------------------------------------------
  // Forecast windowing

  /** Dates the entries one week apart, the first on `start`. */
  function WindowFrom(entries: seq<MonthlyRotation>, start: int): (r: seq<WeeklyRotation>)
    ensures |r| == |entries|
  {
    if entries == [] then []
    else [WeeklyRotation(entries[0].week, entries[0].user, start)] + WindowFrom(entries[1..], start + DaysPerWeek)
  }

  /** Entry `index` of the forecast dated `index` weeks after the start of today's week. */
  function Windowed(entries: seq<MonthlyRotation>, today: int): (r: seq<WeeklyRotation>)
    ensures |r| == |entries|
  {
    WindowFrom(entries, StartOfWeek(today))
  }

  lemma {:induction false} WindowFromAt(entries: seq<MonthlyRotation>, start: int, k: int)
    requires 0 <= k < |entries|
    ensures WindowFrom(entries, start)[k] == WeeklyRotation(entries[k].week, entries[k].user, start + DaysPerWeek * k)
  {
    if k > 0 {
      WindowFromAt(entries[1..], start + DaysPerWeek, k - 1);
    }
  }

  /**
   * Entry k keeps its week and user, in input order, and starts k weeks
   * after the Monday of today's week; the `week` field plays no part.
   */
  lemma WindowedAt(entries: seq<MonthlyRotation>, today: int, k: int)
    requires 0 <= k < |entries|
    ensures |Windowed(entries, today)| == |entries|
    ensures Windowed(entries, today)[k].week == entries[k].week
    ensures Windowed(entries, today)[k].user == entries[k].user
    ensures Windowed(entries, today)[k].startDate == StartOfWeek(today) + DaysPerWeek * k
  {
    WindowFromAt(entries, StartOfWeek(today), k);
  }

  /** Every start date is a Monday; the first week is the one holding today. */
  lemma WindowedMondays(entries: seq<MonthlyRotation>, today: int, k: int)
    requires 0 <= k < |entries|
    ensures IsMonday(Windowed(entries, today)[k].startDate)
    ensures k == 0 ==> Windowed(entries, today)[k].startDate <= today < Windowed(entries, today)[k].startDate + DaysPerWeek
  {
    WindowedAt(entries, today, k);
    DayOfWeekShift(StartOfWeek(today), k);
  }

  /** Consecutive entries start exactly one week apart, so the start dates strictly increase. */
  lemma WindowedConsecutive(entries: seq<MonthlyRotation>, today: int, k: int)
    requires 0 <= k < |entries| - 1
    ensures Windowed(entries, today)[k + 1].startDate == Windowed(entries, today)[k].startDate + DaysPerWeek
    ensures Windowed(entries, today)[k].startDate < Windowed(entries, today)[k + 1].startDate
  {
    WindowedAt(entries, today, k);
    WindowedAt(entries, today, k + 1);
  }

  /** Two lists of the same length get the same dates whatever their `week` fields say. */
  lemma WindowedIgnoresWeek(a: seq<MonthlyRotation>, b: seq<MonthlyRotation>, today: int, k: int)
    requires |a| == |b| && 0 <= k < |a|
    ensures Windowed(a, today)[k].startDate == Windowed(b, today)[k].startDate
  {
    WindowedAt(a, today, k);
    WindowedAt(b, today, k);
  }

  /** A forecast that runs in whole consecutive weeks from a Monday. */
  ghost predicate IsWeekly(ws: seq<WeeklyRotation>) {
    ws != [] ==>
      IsMonday(ws[0].startDate) &&
      forall k | 0 <= k < |ws| :: ws[k].startDate == ws[0].startDate + DaysPerWeek * k
  }

  /** Windowing always yields such a forecast. */
  lemma WindowedIsWeekly(entries: seq<MonthlyRotation>, today: int)
    ensures IsWeekly(Windowed(entries, today))
  {
    var ws := Windowed(entries, today);
    if ws != [] {
      WindowedMondays(entries, today, 0);
      forall k | 0 <= k < |ws| ensures ws[k].startDate == ws[0].startDate + DaysPerWeek * k {
        WindowedAt(entries, today, k);
        WindowedAt(entries, today, 0);
      }
    }
  }

  // ---------------------------------------------------------------------------
  // Display choices

  /** The name of whoever is on duty, or the placeholder when nobody is (or nothing was loaded). */
  function CurrentUserLabel(rotation: Option<Rotation>): (shown: string)
    ensures rotation.Some? && rotation.value.currentUser.Some? ==> shown == rotation.value.currentUser.value.name
    ensures rotation.None? || rotation.value.currentUser.None? ==> shown == NobodyLabel
  {
    match rotation
    case Some(Rotation(_, Some(user))) => user.name
    case _ => NobodyLabel
  }

  /** The server's message when it is present and non-empty, else the default text. */
  function ConfirmationMessage(reply: RotateReply): (m: string)
    ensures Truthy(reply.message) ==> m == reply.message.value
    ensures !Truthy(reply.message) ==> m == DefaultRotatedMessage
    ensures m != ""
  {
    if Truthy(reply.message) then reply.message.value else DefaultRotatedMessage
  }

  // ---------------------------------------------------------------------------
  // The page state and its handlers

  class RotationBoard {
    var rotation: Option<Rotation>
    var monthlyRotation: seq<WeeklyRotation>
    var loading: bool
    var error: Option<string>
    var snackbar: Snackbar

    /** The forecast the page holds always runs in consecutive weeks from a Monday. */
    ghost predicate Valid()
      reads this
    {
      IsWeekly(monthlyRotation)
    }

    /** The state the page mounts with: nothing loaded yet, loading. */
    constructor ()
      ensures Valid()
      ensures rotation == None && monthlyRotation == []
      ensures loading && error == None && snackbar == ClosedSnackbar
    {
      rotation, monthlyRotation := None, [];
      loading, error, snackbar := true, None, ClosedSnackbar;
    }

    /**
     * The render choice: spinner while loading, else the error text when
     * there is one, else who is on duty, the forecast and the snackbar. The
     * snackbar belongs to the content, so the error screen never shows it.
     */
    function View(): (s: Screen<BoardView>)
      reads this
      ensures s.Spinner? <==> loading
      ensures s.ErrorText? <==> !loading && Truthy(error)
      ensures s.ErrorText? ==> error == Some(s.message)
      ensures s.Content? <==> !loading && !Truthy(error)
      ensures s.Content? ==> s.content == BoardView(CurrentUserLabel(rotation), monthlyRotation, snackbar)
    {
      Choose(loading, error, BoardView(CurrentUserLabel(rotation), monthlyRotation, snackbar))
    }

    /**
     * `fetchData`: reads the rotation, then the forecast. A failed rotation
     * read stops there: the forecast is never requested and nothing but the
     * error changes. A failed forecast read leaves the new rotation in place
     * and the old forecast. Only when both succeed is the dated forecast
     * stored and the error cleared. Loading ends in every case.
     */
    method FetchData(rotationRes: Response<Rotation>, monthlyRes: Response<seq<MonthlyRotation>>, today: int)
      returns (monthlyRequested: bool)
      requires Valid()
      modifies this
      ensures Valid()
      ensures !loading
      ensures monthlyRequested <==> rotationRes.Ok?
      ensures rotation == if rotationRes.Ok? then Some(rotationRes.payload) else old(rotation)
      ensures monthlyRotation ==
        if rotationRes.Ok? && monthlyRes.Ok? then Windowed(monthlyRes.payload, today) else old(monthlyRotation)
      ensures error ==
        if !rotationRes.Ok? then Some(FailureMessage(rotationRes, RotationFailedPrefix))
        else if !monthlyRes.Ok? then Some(FailureMessage(monthlyRes, MonthlyFailedPrefix))
        else None
      ensures snackbar == old(snackbar)
    {
      loading := true;
      monthlyRequested := false;
      match rotationRes {
        case Ok(rotationData) =>
          rotation := Some(rotationData);
          monthlyRequested := true;
          match monthlyRes {
            case Ok(monthlyList) =>
              WindowedIsWeekly(monthlyList, today);
              monthlyRotation := Windowed(monthlyList, today);
              error := None;
            case _ =>
              error := Some(ErrorMessage(Raised(monthlyRes, MonthlyFailedPrefix)));
          }
        case _ =>
          error := Some(ErrorMessage(Raised(rotationRes, RotationFailedPrefix)));
      }
      loading := false;
    }

    /**
     * `rotateHandler`: a successful rotate opens the snackbar with the
     * server's message (or the default) and then re-runs `fetchData`; a
     * failed one records the error, skips the re-fetch and leaves the
     * rotation, forecast and snackbar as they were. Loading ends either way.
     */
    method RotateHandler(rotateRes: Response<RotateReply>, rotationRes: Response<Rotation>,
                         monthlyRes: Response<seq<MonthlyRotation>>, today: int)
      returns (refetched: bool, monthlyRequested: bool)
      requires Valid()
      modifies this
      ensures Valid()
      ensures !loading
      ensures refetched <==> rotateRes.Ok?
      ensures monthlyRequested <==> rotateRes.Ok? && rotationRes.Ok?
      ensures !rotateRes.Ok? ==>
        error == Some(FailureMessage(rotateRes, RotateFailedPrefix)) &&
        rotation == old(rotation) && monthlyRotation == old(monthlyRotation) && snackbar == old(snackbar)
      ensures rotateRes.Ok? ==>
        snackbar == Snackbar(true, ConfirmationMessage(rotateRes.payload)) &&
        rotation == (if rotationRes.Ok? then Some(rotationRes.payload) else old(rotation)) &&
        monthlyRotation ==
          (if rotationRes.Ok? && monthlyRes.Ok? then Windowed(monthlyRes.payload, today) else old(monthlyRotation)) &&
        error ==
          (if !rotationRes.Ok? then Some(FailureMessage(rotationRes, RotationFailedPrefix))
           else if !monthlyRes.Ok? then Some(FailureMessage(monthlyRes, MonthlyFailedPrefix))
           else None)
    {
      loading := true;
      refetched, monthlyRequested := false, false;
      match rotateRes {
        case Ok(data) =>
          snackbar := Snackbar(true, ConfirmationMessage(data));
          refetched := true;
          monthlyRequested := FetchData(rotationRes, monthlyRes, today);
        case _ =>
          error := Some(ErrorMessage(Raised(rotateRes, RotateFailedPrefix)));
      }
      loading := false;
    }
  }
}
