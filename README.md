# Duty-rotation admin frontend: page state model

This project models the view state of the two pages of a small administrative
frontend for a duty-rotation scheduler, and the rules each page's handlers use
to change that state:

- the **user management page** holds the two form inputs (`name`, `email`),
  the roster (`userList`), a `loading` flag, a nullable `error` text and a
  snackbar. Its handlers fetch the roster, add a user, delete a user and
  toggle a user's active flag;
- the **rotation page** holds the current rotation (who is on duty, possibly
  nobody), the dated four-week forecast, `loading`, `error` and a snackbar.
  Its handlers fetch the rotation and then the forecast, and advance the
  rotation and re-fetch.

Both pages render a spinner while loading, else the error text, else their
content. Every failure is turned into one error text: a failing status gives
an error whose message is a fixed prefix followed by the status text; any
other caught value gives its own message if it is an `Error`, or a fixed
fallback text otherwise.

The network is not modelled. Each handler takes the outcome of each request
it would issue as an input (`Shared.Response`): a success with its parsed
body, a failing status with its status text, or a rejection carrying the
thrown value. "Today" is an input too. Calendar days are whole numbers: day 0
is 1970-01-01, a Thursday. The start of a week (Monday, with Sunday as the
last day of a week) and the date arithmetic of the forecast are integer
arithmetic over these day numbers.

Modules: `RotationTypes` (the records of types/rotation.ts), `Shared`
(outcomes, error text, snackbar, render priority), `WeekDates` (day numbers,
weekdays, week start), `UsersPage` (app/users/page.tsx: the list transforms
and the class `UserRoster`), `RotationPage` (app/page.tsx: forecast windowing,
display choices and the class `RotationBoard`).

Handlers are class methods over the page's fields. Their contracts give the
whole new state in terms of the old state and the request outcomes. The list
transforms (filter by id, patch by id) and the forecast windowing are
functions; lemmas state what they keep and change.

Notes on behaviour that follows the code:

- The error check in rendering is JavaScript truthiness. An error text that is
  the empty string (an `Error` thrown with an empty message) renders the
  content, not the error (`Shared.Choose`).
- The rotate confirmation falls back to the default text when the server's
  message is absent **or empty** (`RotationPage.ConfirmationMessage`).
- The toggle sets the flag to the negation of the **argument**, not of the
  stored value, on **every** entry with that id. Repeating a toggle with the
  same argument changes nothing more (`UsersPage.WithActiveIdempotent`).
- The add, delete and toggle handlers never clear a previous error on success.
  Only a successful fetch clears it.
- A rotate whose re-fetch fails still leaves the snackbar state open with the
  success message. The error screen does not render the snackbar (it belongs
  to the content view), so it shows up only once the error is gone.

## Model

| member | source | states |
|---|---|---|
| `Shared.ErrorMessage` | app/users/page.tsx:59-61 | the recorded text is the caught `Error`'s message, or the fixed fallback for any other value |
| `Shared.Raised` | app/users/page.tsx:53-55 | a failing status throws an `Error` whose message is the handler's prefix followed by the status text; a rejection passes its own thrown value on |
| `Shared.FailureMessageNamesStatus` | app/page.tsx:54-56 | the error text of a failing status is exactly the prefix followed by the status text, so it contains that text |
| `Shared.FailureMessage` | app/page.tsx:54-78 | the error text a failed request records: the handler's prefix followed by the status text for a failing status; the thrown `Error`'s message, or the fallback text, for a rejection |
| `Shared.Choose` | app/users/page.tsx:123-137 | render priority: spinner exactly when loading; error text exactly when not loading and the error is a non-empty string; content otherwise |
| `WeekDates.StartOfWeek` | app/page.tsx:68 | the week start of a day is a Monday, on or before the day and less than a week before it |
| `WeekDates.DayOfWeekShift` | app/page.tsx:71 | adding whole weeks keeps the weekday |
| `WeekDates.StartOfWeekUnique` | app/page.tsx:68 | the week start is the only Monday in the seven days ending with the day |
| `WeekDates.StartOfWeekOfMonday` | app/page.tsx:68 | a Monday is its own week start |
| `WeekDates.StartOfWeekShift` | app/page.tsx:68 | moving a day by k weeks moves its week start by k weeks |
| `UsersPage.WithoutId` | app/users/page.tsx:96 | the filtered roster is no longer than the old one and holds no entry with the deleted id |
| `UsersPage.WithoutIdCounts` | app/users/page.tsx:96 | every entry with the deleted id is removed, not just the first; every other entry is kept as often as it occurred |
| `UsersPage.WithoutIdAppend` | app/users/page.tsx:96 | filtering distributes over concatenation, so kept entries keep their relative order |
| `UsersPage.WithoutIdAbsent` | app/users/page.tsx:96 | a roster without the id is left exactly as it was |
| `UsersPage.WithoutIdIdempotent` | app/users/page.tsx:96 | deleting an id twice equals deleting it once |
| `UsersPage.WithActive` | app/users/page.tsx:114 | the patched roster has the same length |
| `UsersPage.WithActiveAt` | app/users/page.tsx:114 | entry k keeps id, name and email; its flag becomes the given value when its id matches and is unchanged otherwise; entries with other ids are unchanged |
| `UsersPage.FlipsStoredFlag` | app/users/page.tsx:104-114 | when the matching entries hold the flag passed in, patching with its negation flips exactly those entries |
| `UsersPage.WithActiveIdempotent` | app/users/page.tsx:109-114 | the new flag is the negation of the argument, not of the stored flag: a second toggle with the same argument changes nothing |
| `UsersPage.DeleteAfterPatch` | app/users/page.tsx:96-114 | patching an id and then deleting it equals deleting it |
| `UsersPage.UserRoster.constructor` | app/users/page.tsx:38-43 | the page starts with empty inputs and roster, loading, no error and a closed snackbar |
| `UsersPage.UserRoster.View` | app/users/page.tsx:123-196 | spinner exactly while loading; the error text exactly when not loading and the error is a non-empty string; otherwise the form with both inputs, the roster rows in order and the snackbar |
| `UsersPage.UserRoster.EditName` | app/users/page.tsx:150 | typing sets the name input |
| `UsersPage.UserRoster.EditEmail` | app/users/page.tsx:156 | typing sets the email input |
| `UsersPage.UserRoster.FetchUsers` | app/users/page.tsx:49-65 | success replaces the roster and clears the error; failure records the error text and keeps the roster; loading is false afterwards; inputs and snackbar unchanged |
| `UsersPage.UserRoster.AddUser` | app/users/page.tsx:67-88 | a request is made exactly when both inputs are non-empty, with `active` true; otherwise nothing changes; success appends the returned user after the old entries, empties both inputs and opens the success snackbar; failure records the error and keeps roster and inputs; loading is never touched |
| `UsersPage.UserRoster.DeleteUser` | app/users/page.tsx:90-102 | success filters the id out of the roster and opens the snackbar; failure records the error and keeps the roster; inputs and loading unchanged |
| `UsersPage.UserRoster.ToggleActive` | app/users/page.tsx:104-121 | the request carries the negated argument; success patches every entry with the id to that value and opens the snackbar; failure records the error and keeps the roster; length preserved |
| `RotationPage.WindowFrom` | app/page.tsx:69-72 | the dated forecast has one entry per input entry |
| `RotationPage.WindowFromAt` | app/page.tsx:69-72 | entry k keeps its week and user and starts k weeks after the first date |
| `RotationPage.Windowed` | app/page.tsx:67-72 | the windowed forecast has one entry per input entry; its contents are given by `WindowedAt` and `WindowedIsWeekly` |
| `RotationPage.WindowedAt` | app/page.tsx:67-72 | same length as the input; entry k keeps its week and user and starts on the week start of today plus 7k days |
| `RotationPage.WindowedMondays` | app/page.tsx:67-71 | every start date is a Monday, and the first one is on or before today and less than a week before it |
| `RotationPage.WindowedConsecutive` | app/page.tsx:71 | consecutive start dates differ by exactly seven days and strictly increase |
| `RotationPage.WindowedIgnoresWeek` | app/page.tsx:69-72 | start dates depend only on position, never on the `week` field |
| `RotationPage.WindowedIsWeekly` | app/page.tsx:66-72 | the dated forecast runs in consecutive weeks from a Monday |
| `RotationPage.CurrentUserLabel` | app/page.tsx:132 | the on-duty user's name when there is one; the placeholder `なし` when nothing is loaded or nobody is on duty |
| `RotationPage.ConfirmationMessage` | app/page.tsx:94 | the server's message when present and non-empty, else the default text; never empty |
| `RotationPage.RotationBoard.constructor` | app/page.tsx:40-44 | the page starts with no rotation, an empty forecast, loading, no error and a closed snackbar |
| `RotationPage.RotationBoard.View` | app/page.tsx:104-166 | spinner exactly while loading; the error text exactly when not loading and the error is a non-empty string; otherwise the current-user label, the dated forecast in order and the snackbar |
| `RotationPage.RotationBoard.FetchData` | app/page.tsx:50-82 | the forecast is requested exactly when the rotation read succeeded; a failed rotation read changes only the error (with its status text); a failed forecast read keeps the new rotation and the old forecast; both reads succeeding store the dated forecast and clear the error; loading ends false; the forecast stays weekly |
| `RotationPage.RotationBoard.RotateHandler` | app/page.tsx:84-102 | a re-fetch happens exactly when the rotate succeeded, after the snackbar opens with the confirmation text; a failed rotate records the error and keeps rotation, forecast and snackbar; loading ends false |

## Left out

- Requests, HTTP status codes beyond success or failure, JSON parsing and the
  configured base URL: each is an input outcome. A body that parses but does
  not have the declared shape (for example a rotate reply that is `null`, or a
  `message` that is not a string) is not modelled.
- React hooks and the mount-time fetch: the constructors give the initial
  state; calling the fetch handler is left to the caller.
- All styling, theme objects and layout. Rendering is reduced to which of
  spinner, error text and content is shown, and the content's data.
- The snackbar's auto-hide after six seconds and its close handler: they are
  driven by a timer.
- Overlapping requests and handlers that read a stale roster: each handler is
  one atomic step. The intermediate `loading` value inside `fetchData` and
  `rotateHandler` (set to true, then false) is not observable in that model.
- Time of day, time zones and the `yyyy/MM/dd` Japanese-locale date format:
  dates are whole day numbers. The forecast rows carry the day number, not the
  formatted text.
- Diagnostic logging to the console.
- next-env.d.ts holds only ambient type declarations and has nothing to model.
