# Todo app: paginator, registration rules and list screens, in Dafny

This project models the four pieces of the todo web client whose behaviour can
be stated exactly, and proves properties of them:

- **Paginator** (`paginator.dfy`, module `Paginator`). The paginator control
  renders a row of page-number buttons, with ellipses where page numbers are
  skipped, for a current page and a page count. The prev/next arrows are
  disabled at the ends and while loading.
  - `RenderPageNumbers` builds the row as the control does: it pushes entries
    in loops and branches.
  - It is proved equal to the functional `PageEntries`.
  - `PageEntries` is then proved to match an independent description of the
    row (`WellLaidOut`, `IsShown`): which pages get a button, increasing order,
    where the ellipses go, which button is highlighted.
- **Registration rules** (`validation.dfy`, module `Validation`). The
  username, email and password rules of the registration schema, and the form
  as a whole.
  - Each field is an ordered list of tests, each paired with its failure message.
  - A field is accepted when none of its tests fails.
  - The email pattern `^[^@ ]+@[^@ ]+\.[^@ ]{2,}$` is stated as its language
    and proved equal to a plain description: no space, one '@', and so on.
- **Todo list screen** (`todo_list.dfy`, module `TodoList`). The screen keeps
  seven pieces of state:
  - the query version, whose every bump refetches the list;
  - the edit, confirm and add modal flags;
  - the updating flag;
  - the add draft and the edit draft.

  The class `TodoListScreen` has one method per handler. A handler that calls
  the backend takes the outcome of that call as a parameter and returns the
  request it sends.
- **Todos page** (`todos.dfy`, module `Todos`). The server-paginated page
  keeps a current page, a page size and a sort direction. It has handlers for
  the arrows and the two selectors. The request URL and the cache key are
  built from that state by rendering integers in decimal.
  - Both are proved to determine the state they were built from: `ParseUrl`
    reads the URL back.
  - The key is proved injective.

Two facts about the code shape the model:
- The list screen does no client-side search, filtering or sorting. It renders
  the fetched todos as they come (src/components/TodoList.tsx:310-311).
- Toggling completion is not optimistic. The edit draft and the query version
  change only after a 200 response (src/components/TodoList.tsx:160-162), so
  nothing has to be rolled back on failure.

## Model

| member | source | states |
|---|---|---|
| Paginator.RenderPageNumbers | src/components/ui/Paginator.tsx:22-139 | The row pushed entry by entry through the loops and branches equals `PageEntries(page, pageCount)`. |
| Paginator.FewPagesListsAll | src/components/ui/Paginator.tsx:25-40 | With at most seven pages the row is exactly buttons 1..pageCount in order, each active iff it is the current page, with no ellipsis. With pageCount <= 0 the row is empty. |
| Paginator.ManyPagesLayout | src/components/ui/Paginator.tsx:42-135 | With more than seven pages the row is buttons 1 and 2, then the middle group, then buttons pageCount-1 and pageCount, each active iff it is the current page. |
| Paginator.ManyPagesRow | src/components/ui/Paginator.tsx:42-135 | The full row for each of the three middle groups: seven entries with ellipsis, current page, ellipsis when 3 < page < pageCount-2; six entries with button 3 and an ellipsis when page <= 3; six entries with an ellipsis and button pageCount-2 otherwise. |
| Paginator.FewPagesShape | src/components/ui/Paginator.tsx:25-40 | With at most seven pages the row is well laid out: buttons in range and increasing, no ellipsis, only the current page highlighted, and exactly pages 1..pageCount shown. |
| Paginator.ManyPagesIncreasing | src/components/ui/Paginator.tsx:42-135 | With more than seven pages the button numbers strictly increase along the row. |
| Paginator.ManyPagesDotsMarkGaps | src/components/ui/Paginator.tsx:59-118 | Each ellipsis sits strictly between two buttons whose numbers differ by more than one, and two adjacent buttons carry consecutive numbers. |
| Paginator.ManyPagesActive | src/components/ui/Paginator.tsx:42-135 | A button is highlighted iff its number is the current page. |
| Paginator.ManyPagesButtons | src/components/ui/Paginator.tsx:42-135 | At most seven entries, every button number in [1, pageCount], and the buttons show exactly pages 1, 2, pageCount-1, pageCount and the current page clamped into [3, pageCount-2]. |
| Paginator.RowShape | src/components/ui/Paginator.tsx:22-139 | For every page and page count the row is well laid out: at most seven entries, in-range increasing buttons, ellipses exactly at the gaps, only the current page highlighted, and the shown pages as `IsShown` describes. |
| Paginator.CurrentPageShown | src/components/ui/Paginator.tsx:22-139 | For 1 <= page <= pageCount, the current page always appears as a highlighted button. |
| Paginator.ShownButtonInRange | src/components/ui/Paginator.tsx:22-139 | Every button in the row leads to a page in [1, pageCount]. |
| Paginator.PrevDisabled | src/components/ui/Paginator.tsx:159 | Prev is disabled whenever data is loading, and otherwise iff the current page is 1. |
| Paginator.NextDisabled | src/components/ui/Paginator.tsx:181 | Next is disabled whenever data is loading, and otherwise iff the current page equals the page count. |
| Paginator.NextEnabledPastLastPage | src/components/ui/Paginator.tsx:181 | Past the last page (or with no pages) Next stays enabled when not loading, also after one more step: the page is never clamped. |
| Paginator.EnabledArrowStaysInRange | src/components/ui/Paginator.tsx:156-183 | From a page in range, an enabled prev or next arrow leads to a page still in range. While loading, both arrows are disabled. |
| Validation.Failures | src/validation/index.ts:3-29 | The reported messages are exactly those of the failing tests. None is reported iff every test passes. There are never more messages than tests. |
| Validation.UsernameChecks | src/validation/index.ts:5-8 | The username tests, in order: "Username is required!", passed iff present and non-empty; then the minimum-length message, passed iff absent or at least 5 characters. |
| Validation.UsernameAccepted | src/validation/index.ts:5-8 | A username is accepted iff it is present with at least 5 characters. The required message is reported iff it is absent or empty. |
| Validation.EmailChecks | src/validation/index.ts:9-15 | The email tests, in order: "Email is required!", passed iff present and non-empty; then the invalid-address message, passed iff absent or matched by the email pattern. |
| Validation.PatternGivesShape | src/validation/index.ts:12-15 | A string the email pattern matches has no space, exactly one '@', and after it a '.' with at least one character before and two after. |
| Validation.ShapeGivesPattern | src/validation/index.ts:12-15 | A string with that shape is matched by the email pattern. |
| Validation.EmailPatternCharacterised | src/validation/index.ts:12-15 | The email pattern matches a string iff the string has no space, exactly one '@', a non-empty part before it, and after it a '.' with at least one character before and two after. |
| Validation.EmailAccepted | src/validation/index.ts:9-15 | An email is accepted iff it is present and has that shape. The required message is reported iff it is absent or empty. |
| Validation.CountOfAppend | src/validation/index.ts:13 | The number of '@' (or any character) in a concatenation is the sum over the parts. |
| Validation.PasswordChecks | src/validation/index.ts:16-27 | The password tests, in order: required (present and non-empty); minimum length (absent or at least 8 characters); a digit in the value read as ""-if-absent; an uppercase letter likewise. |
| Validation.PasswordAccepted | src/validation/index.ts:16-27 | A password is accepted iff it is present, has at least 8 characters, contains a digit 0-9 and contains an uppercase letter A-Z. The required message is reported iff it is absent or empty. |
| Validation.AbsentPasswordFailsContentTests | src/validation/index.ts:19-26 | An absent password fails the digit and uppercase tests, which read it as "", but not the length test, which skips it. |
| Validation.FormAccepted | src/validation/index.ts:3-29 | The form is accepted iff each of username, email and password is. |
| TodoList.TodoListScreen.constructor | src/components/TodoList.tsx:15-31 | Initial state: query version 1, all three modals closed, not updating, add draft ("", ""), edit draft {0, "", "", false}. |
| TodoList.TodoListScreen.OnCloseAddModal | src/components/TodoList.tsx:44-50 | Resets the add draft and closes the add modal. Nothing else changes. |
| TodoList.TodoListScreen.OnOpenAddModal | src/components/TodoList.tsx:52-54 | Opens the add modal. Nothing else changes. |
| TodoList.TodoListScreen.OnCloseEditModal | src/components/TodoList.tsx:56-64 | Resets the edit draft and closes the edit modal. Nothing else changes. |
| TodoList.TodoListScreen.OnOpenEditModal | src/components/TodoList.tsx:66-69 | Sets the edit draft to the chosen todo and opens the edit modal. Nothing else changes. |
| TodoList.TodoListScreen.OpenConfirmModal | src/components/TodoList.tsx:71-74 | Sets the edit draft to the chosen todo and opens the confirmation modal. Nothing else changes. |
| TodoList.TodoListScreen.CloseConfirmModal | src/components/TodoList.tsx:76-84 | Resets the edit draft and closes the confirmation modal. Nothing else changes. |
| TodoList.TodoListScreen.OnAddChangeHandler | src/components/TodoList.tsx:86-95 | Replaces only the named field of the add draft. |
| TodoList.TodoListScreen.OnChangeHandler | src/components/TodoList.tsx:97-106 | Replaces only the named field of the edit draft. Id and completion are kept. |
| TodoList.TodoListScreen.OnRemove | src/components/TodoList.tsx:108-142 | Sends a delete for the draft's id. On a 200 it closes the confirmation, resets the draft and bumps the query version by exactly one. Otherwise nothing changes. |
| TodoList.TodoListScreen.OnToggleComplete | src/components/TodoList.tsx:144-192 | Sends the todo's id with completion negated. On a 200 the edit draft becomes the toggled todo and the query version goes up by one; modals and the updating flag are untouched. Otherwise nothing changes. |
| TodoList.TodoListScreen.OnAddSubmitHandler | src/components/TodoList.tsx:194-240 | Sends the add draft's title and description with the user. On a 200 it closes the add modal with an empty draft and bumps the query version. Whatever the outcome, the updating flag ends false and a failure keeps the modal and the draft. |
| TodoList.TodoListScreen.OnSubmitHandler | src/components/TodoList.tsx:242-289 | Sends the edit draft's id, title and description. On a 200 it closes the edit modal with an empty draft and bumps the query version. Whatever the outcome, the updating flag ends false and a failure keeps the modal and the typed draft. |
| TodoList.ToggleTwice | src/components/TodoList.tsx:144-162 | Two successful toggles, the second on the refetched todo, give back the original todo, and the query version ends at 3. |
| TodoList.ConfirmDelete | src/components/TodoList.tsx:71-142 | Confirming a successful delete sends the chosen todo's id, closes the confirmation, resets the draft and leaves the query version at 2. |
| TodoList.FailedEdit | src/components/TodoList.tsx:242-289 | An edit whose save throws sends the typed title, keeps the edit modal open with the typed draft, clears the updating flag and keeps query version 1. |
| Todos.TodosPage.constructor | src/components/Todos.tsx:9-11 | Initial state: page 1, page size 10, sort "Desc". |
| Todos.TodosPage.OnClickPrev | src/components/Todos.tsx:24-26 | The page goes down by exactly one. Page size and sort are unchanged. |
| Todos.TodosPage.OnClickNext | src/components/Todos.tsx:27-29 | The page goes up by exactly one. Page size and sort are unchanged. |
| Todos.TodosPage.OnChangePageSize | src/components/Todos.tsx:31-33 | For an offered option value, the page size becomes the offered size whose decimal text is that value. The page is not reset and may lie past the new last page. The sort is unchanged. |
| Todos.TodosPage.OnChangeSortBy | src/components/Todos.tsx:35-37 | The sort becomes the chosen value. The page and page size are unchanged. |
| Todos.ParseDecNat | src/components/Todos.tsx:14-15 | Reading back the decimal digits of a natural number gives the number. |
| Todos.ReadDec | src/components/Todos.tsx:14-15 | An integer rendered in decimal and followed by a non-digit is read back exactly, sign included, with the rest left over. |
| Todos.DecInjective | src/components/Todos.tsx:14-15 | Different integers render to different decimal texts. |
| Todos.RequestUrl | src/components/Todos.tsx:15 | The request URL starts with "/todos?pagination[pageSize]=" and ends with the sort value. |
| Todos.QueryKey | src/components/Todos.tsx:14 | The cache key has three parts: "todos-page-" followed by the page, the page size, and the sort value. |
| Todos.ParseRequestUrl | src/components/Todos.tsx:15 | Reading the request URL back gives the page, page size and sort it was built from, so different states fetch different URLs. |
| Todos.QueryKeyInjective | src/components/Todos.tsx:14 | Equal cache keys imply equal page, page size and sort. |
| Todos.PageSizeOptionValues | src/components/Todos.tsx:70-81 | The page-size select offers exactly the values "10", "25", "50" and "100", in that order. |
| Todos.OptionValueRendersSize | src/components/Todos.tsx:70-81 | Each offered value is the decimal text of the page size at the same position of 10, 25, 50, 100. |
| Todos.InitialSortNotOffered | src/components/Todos.tsx:46-60 | The initial sort "Desc" is neither of the offered values "DESC" and "ASC". |
| Todos.TodosPage.OnPageNumberClickAsWritten | src/components/Todos.tsx:104-111 | As written, a click on a page-number button changes nothing, because no page-change handler is passed to the paginator. |
| Todos.TodosPage.OnPageChange | src/components/ui/Paginator.tsx:10 | With the handler connected, the clicked page becomes the current page. Page size and sort are unchanged. |
| Todos.PageNumberClick | src/components/Todos.tsx:104-111 | On a fresh page, clicking any shown page button leaves page 1 as written. With the handler connected it moves to the clicked page, which lies in [1, pageCount]. |
| Todos.PageThreeOffered | src/components/ui/Paginator.tsx:80-93 | With ten pages, the first page shows a button for page 3, so such a click should change the page. |

## Left out

- HTTP calls are not modelled: the axios instance, the authenticated query hooks and the backend's response bodies.
  - A handler takes the call's outcome as a parameter: a response status, or a thrown error.
  - Only status 200 counts as success, as in the code. Any other response is ignored.
  - The HTTP client's own rejection of non-2xx statuses is covered by the thrown outcome.
- The list and page data fetched by the query hooks is not modelled. The todos shown and the page count come from the server.
- Toasts, console logging, `preventDefault`, class names, colours, SVGs and the dark-mode flag are presentation and are not modelled.
- Each backend handler runs as one atomic step, with its await folded in. Interleaving of several in-flight requests is not modelled, so neither is the updating flag being seen as true by another handler.
- Paginator: while data loads, the page count is undefined. Then `pageCount <= 7` (src/components/ui/Paginator.tsx:25) is false, so the many-pages branch runs: the row shows 1, 2, 3 and an ellipsis, or for page > 3 an ellipsis and a button labelled NaN, and the last-two loop pushes nothing. The model takes the page count as an integer.
- The text above the paginator ("Page x of y (n Records)") is display only and is not modelled.
- Validation: not modelled, and why:
  - Which message the form library shows first when several tests fail. The model gives the list of failing messages in declaration order.
  - The object-level `.required()` on the schema. The form object is always present here.
  - Coercion of non-string values to strings.
- Validation.PasswordErrors: an absent password is given all the tests that fail on it (required, digit, uppercase). Whether the form library runs the later tests after `required` fails depends on its version: yup 1.x stops there. Accept or reject does not change.
- Todos.Dec: renders integers as plain decimal digits. JavaScript writes numbers from 1e21 upwards in exponent notation, which is not modelled.
- Paginator.EnabledArrowStaysInRange: covers pages within range only. Past the last page, or with page count 0, Next stays enabled when not loading (`Paginator.NextEnabledPastLastPage`), because the page is never clamped.
- TodoList.Todo: leaves out the optional `createdAt` and `updatedAt` fields of a todo (src/interfaces/index.ts:29-30). Opening the edit modal copies them into the draft, but no handler reads them.
- Validation: lengths and the email pattern count characters, where JavaScript counts UTF-16 code units. The pattern has no `u` flag, so `[^@ ]{2,}` (src/validation/index.ts:13) is met by a single character outside the Basic Multilingual Plane: "a@b.😀" matches in JavaScript but not `MatchesEmailPattern`. The two differ only outside that plane.
- Todos.TodosPage.OnChangePageSize: only option values the select offers are modelled. Converting arbitrary text to a number (`+value`, which may give NaN) is not.
- Todos.TodosPage.constructor: states the initial page, page size and sort. It does not state the literal initial URL text; `ParseRequestUrl` states what the URL carries.
- The "Loading..." expression at src/components/Todos.tsx:39-41 has no effect and is not modelled.
- The list rendering of todos is not modelled.
- Not modelled: the router, the login, registration, profile and password pages, the modal components, the search bar and selector components, and localStorage session handling.

## Findings

| source | as written | input that shows it | evidently intended | confidence | as-written member | corrected member |
|---|---|---|---|---|---|---|
| src/components/Todos.tsx:104-111 | The paginator is rendered without `onPageChange`, although its props require it (src/components/ui/Paginator.tsx:10). Every page-number button calls it (:30, 47, 69, 84, 108, 125), so a click throws and the page stays as it was. The fault is latent: no route in src/router/index.tsx mounts this page; its index route mounts the home page, which renders the todo list instead (:22-33). A type check (`tsc`) reports the missing required prop. | Ten pages, current page 1: click the shown button "3". | The click moves to page 3, which is in [1, pageCount]. | medium, not executed | Todos.TodosPage.OnPageNumberClickAsWritten, Todos.PageNumberClick, Todos.PageThreeOffered | Todos.TodosPage.OnPageChange, Todos.PageNumberClick, Paginator.ShownButtonInRange |
