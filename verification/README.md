# Solid inventory page — a Dafny model

This project models the controller logic of the solid-chemical inventory page
of a laboratory inventory front end, and the small auto-logout timer manager.
The page shows a searchable, paginated list of solid inventory items fetched
from a backend. It adds, updates and deletes items through popups, and it
prints an item's label on a local Zebra printer through the browser print SDK.

Every backend request and SDK call is an input to the model: an answer is
either a value or an error. Each operation is a pure function of those answers.
It returns the next state, or an outcome, together with the requests or calls
it made.

Modules:

- `Options`: the optional value used for `null`/`undefined`.
- `Decimal`: integers of magnitude at most 2^53 as a template literal prints them, plus the
  inverse parser.
- `Inventory`: locations, categories, units, items and SDK printers.
- `Errors`: the error line `Error: <status> - <message>`, and a parser that
  reads it back.
- `Forms`: the add form and the update-details form, with their initial values,
  field edits and request bodies.
- `Printing`: the four-step print-label workflow and the first-match printer
  search.
- `Debounce`: the 500-tick search timer in discrete time. It keeps a log of key
  changes and a log of the fetches the timer issued.
- `Page`: the view state machine, the request endpoints, and the whole page
  (view plus search timer).
- `AutoLogout`: the single stored timer handle.

Behaviour of the code worth knowing:

- A successful add, update or delete refetches the list with no arguments.
  That means the default column, an empty term and page 0, even while a search
  is active (`Page.MutationRefetchIgnoresSearch`).
- Every failing step of the print workflow shows the same alert, "Error
  printing label". That covers the label request, the default-printer request,
  a missing or failing printer SDK, and a rejected send. When no enumerated
  printer matches, the alert is "Default printer not found" instead
  (`Printing.PrintOutcomes`).
- A failed mutation leaves the popups as they are. A successful one closes only
  its own popup. Delete closes none.

## Model

| member | source | states |
|---|---|---|
| `Errors.FormatError` | src/pages/inventory/solidInventoryItemPage/solidInventoryItemPage.tsx:78-83 | The error line starts with "Error: ", followed by the printed status (or "undefined") and then the " - " separator. The detail after it may be empty; `Errors.FormatErrorRoundTrip` pins it down. |
| `Errors.FormatErrorRoundTrip` | src/pages/inventory/solidInventoryItemPage/solidInventoryItemPage.tsx:78-83 | Two things can be read back from the line. One is the HTTP status, or "undefined" when no response came. The other is the detail: the backend message when it is non-empty, otherwise the client's message, otherwise "undefined". |
| `Errors.FormatErrorDistinguishes` | src/pages/inventory/solidInventoryItemPage/solidInventoryItemPage.tsx:78-83 | Two errors yield the same line only if they have the same status and the same detail. |
| `Page.ListParams` | src/pages/inventory/solidInventoryItemPage/solidInventoryItemPage.tsx:86-99 | Each omitted list-fetch argument takes its default: 'Inventory Item', '', 0 and 10. Each supplied argument is passed into the query parameters unchanged. |
| `Page.LoadItems` | src/pages/inventory/solidInventoryItemPage/solidInventoryItemPage.tsx:100-107 | On success the items become the returned content wholesale and nothing else in the view changes. On failure the items are kept and the error becomes the formatted line. Popups are untouched either way. |
| `Page.ItemsOnlyFromListFetch` | src/pages/inventory/solidInventoryItemPage/solidInventoryItemPage.tsx:104 | Only a successful list fetch changes the displayed items, and it sets them to its content. |
| `Page.FailureOnlySetsError` | src/pages/inventory/solidInventoryItemPage/solidInventoryItemPage.tsx:105-194 | A failed list, reference or mutation answer changes only the error line and issues no request. |
| `Page.Complete` | src/pages/inventory/solidInventoryItemPage/solidInventoryItemPage.tsx:157-194 | A successful mutation issues exactly one default-argument list fetch. It closes exactly its own popup (delete closes none). It keeps the items, the selection and the reference lists. A failure issues nothing and only sets the error. |
| `Page.RefetchOnlyAfterMutation` | src/pages/inventory/solidInventoryItemPage/solidInventoryItemPage.tsx:157-194 | A view event issues a list fetch if and only if it is a successful mutation answer, and that fetch always has the default parameters. |
| `Page.MutationRefetchIgnoresSearch` | src/pages/inventory/solidInventoryItemPage/solidInventoryItemPage.tsx:160 | With a search term active, the post-mutation refetch still asks for ('Inventory Item', '', 0, 10). That differs from the active search's parameters, and the search state is left unchanged. |
| `Page.EndpointIdentifiesTarget` | src/pages/inventory/solidInventoryItemPage/solidInventoryItemPage.tsx:169-189 | Two item-level requests (quantity patch, details patch, delete) share a method and path exactly when they are the same kind of request on the same id. |
| `Page.StepKeepsSelection` | src/pages/inventory/solidInventoryItemPage/solidInventoryItemPage.tsx:196-204 | Every event preserves the invariant that an open quantity or details popup has a selected item. |
| `Page.Mount` | src/pages/inventory/solidInventoryItemPage/solidInventoryItemPage.tsx:142-147 | Mounting issues the default list fetch first, then the location, category and unit fetches. It starts from the empty view, with the search timer at the default key and due at tick 500. |
| `Page.PageTicks` | src/pages/inventory/solidInventoryItemPage/solidInventoryItemPage.tsx:150-152 | On the whole page, quiet ticks issue at most the pending search fetch. It is issued once, with the current column and term, when its deadline is reached, and the view does not change. |
| `Page.MountThenQuietFetchesDefaultTwice` | src/pages/inventory/solidInventoryItemPage/solidInventoryItemPage.tsx:142-155 | Mounting issues the default list fetch at once, and 500 quiet ticks later the search timer issues the same default fetch exactly once more. |
| `Page.SearchFetchCarriesKey` | src/pages/inventory/solidInventoryItemPage/solidInventoryItemPage.tsx:150-152 | A tick issues a list fetch exactly when the search deadline is reached. The fetch carries the current column and term, page 0 and size 10. |
| `Debounce.DebounceFetchLog` | src/pages/inventory/solidInventoryItemPage/solidInventoryItemPage.tsx:149-155 | For every input sequence after mount, the issued fetches equal the reference log. That log is each change followed by 500 quiet ticks, at its deadline, with its key. |
| `Debounce.FetchIffQuiet` | src/pages/inventory/solidInventoryItemPage/solidInventoryItemPage.tsx:149-155 | A fetch for key k at time t is issued if and only if the key became k at t-500 and no change came before t. |
| `Debounce.StepRecordsChange` | src/pages/inventory/solidInventoryItemPage/solidInventoryItemPage.tsx:149-155 | An input that changes the term or the column appends exactly that change, at the current time, to the change log. Any other input leaves the log alone. The key becomes the requested one either way. |
| `Debounce.StepValid` | src/pages/inventory/solidInventoryItemPage/solidInventoryItemPage.tsx:149-155 | Every tick and every key change keeps the timer consistent with the last change. The timer is pending until 500 ticks after that change, and the fetch log matches the reference. |
| `Debounce.RunTicks` | src/pages/inventory/solidInventoryItemPage/solidInventoryItemPage.tsx:150-152 | Quiet ticks issue only the pending fetch, once, when its deadline is reached. |
| `Debounce.ChangeRestartsTimer` | src/pages/inventory/solidInventoryItemPage/solidInventoryItemPage.tsx:154 | Changing the term cancels the pending fetch. Nothing is fetched in the next 499 ticks, and exactly one fetch with the new key is issued at tick 500. |
| `Debounce.ChangeColumnRestartsTimer` | src/pages/inventory/solidInventoryItemPage/solidInventoryItemPage.tsx:154-155 | Changing the column cancels the pending fetch in the same way. Nothing is fetched in the next 499 ticks, and exactly one fetch with the new key is issued at tick 500. |
| `Debounce.TypingBurstFetchesFinalTerm` | src/pages/inventory/solidInventoryItemPage/solidInventoryItemPage.tsx:149-155 | Two keystrokes less than 500 ticks apart, followed by quiet, produce a single fetch, for the final term. |
| `Debounce.MountFetchesDefault` | src/pages/inventory/solidInventoryItemPage/solidInventoryItemPage.tsx:142-155 | After mount and 500 quiet ticks the timer has issued exactly one fetch, with the default key. This comes on top of the immediate mount fetch. |
| `Printing.FindPrinter` | src/pages/inventory/solidInventoryItemPage/solidInventoryItemPage.tsx:227-231 | Returns the first printer whose uid or connection equals the default id. It returns none exactly when no printer matches. |
| `Printing.PrintLabel` | src/pages/inventory/solidInventoryItemPage/solidInventoryItemPage.tsx:210-271 | The calls made are always a prefix of label POST, default-printer GET, enumeration, send, in that order. The label POST is always made. Success makes all four. |
| `Printing.PrintOutcomes` | src/pages/inventory/solidInventoryItemPage/solidInventoryItemPage.tsx:210-245 | "Print job sent successfully" if and only if every step succeeded and a printer matched. "Default printer not found" if and only if the first three steps succeeded and none matched. "Error printing label" in every other case. |
| `Printing.PrintSuccessCalls` | src/pages/inventory/solidInventoryItemPage/solidInventoryItemPage.tsx:213-240 | On success the label body is {item.id, inventoryItemId, name, location.name}. The single send goes to the first matching printer and carries the label returned by step 1. |
| `Printing.SendAtMostOnce` | src/pages/inventory/solidInventoryItemPage/solidInventoryItemPage.tsx:227-240 | Send is called at most once. It is called exactly when the first three steps succeeded and some printer matched. |
| `Printing.FailureStopsWorkflow` | src/pages/inventory/solidInventoryItemPage/solidInventoryItemPage.tsx:211-263 | No later step runs after a failure. That covers a failed label POST, a failed default-printer GET, a missing SDK (no SDK call is made), a failed enumeration and a failed match. |
| `Printing.PrintExampleZD500` | src/pages/inventory/solidInventoryItemPage/solidInventoryItemPage.tsx:227-240 | With default id "ZD500", the printer {uid "ZD500", connection "usb:001"} listed second still gets the label, and the success alert is shown. |
| `Forms.NewAddForm` | src/pages/inventory/solidInventoryItemPage/solidInventoryItemPage.tsx:413-426 | The add form opens with location and category set to the first entry's id, or 0 if the list is empty. The unit is the first unit's quantityUnit, or ''. Name and CAS number are empty and the quantity is 0. |
| `Forms.SubmitAdd` | src/pages/inventory/solidInventoryItemPage/solidInventoryItemPage.tsx:428-440 | The add request body has type 'SOLID'. Its location and category are {id} wrappers around the form's ids. Every other field is the form's current value. |
| `Forms.AddEditsKeepUntouched` | src/pages/inventory/solidInventoryItemPage/solidInventoryItemPage.tsx:446-504 | Editing one field of the add form never changes location, category, unit or name unless that field is the one edited. |
| `Forms.AddFormDefaults` | src/pages/inventory/solidInventoryItemPage/solidInventoryItemPage.tsx:417-439 | If location, category and unit are never touched, the submitted body carries the first-entry defaults and type 'SOLID'. |
| `Forms.NewDetailsForm` | src/pages/inventory/solidInventoryItemPage/solidInventoryItemPage.tsx:559-562 | The details form opens with the item's name, location id and category id. The CAS number is the item's, or '' when it is null. |
| `Forms.SubmitDetails` | src/pages/inventory/solidInventoryItemPage/solidInventoryItemPage.tsx:564-571 | The details body carries the form's current name, CAS number, category id and location id. |
| `Forms.DetailsEditsLastWins` | src/pages/inventory/solidInventoryItemPage/solidInventoryItemPage.tsx:576-600 | A field nobody edited keeps its value. For every field, the last edit of that field decides its value, whatever edits of other fields follow. |
| `Forms.DetailsFormDefaults` | src/pages/inventory/solidInventoryItemPage/solidInventoryItemPage.tsx:559-571 | Every unedited field of the submitted {name, casNumber, categoryId, locationId} is the item's own value, with a null CAS number sent as ''. |
| `AutoLogout.Apply` | src/utils/autoLogoutManager.ts:5-14 | Setting stores the handle and cancels nothing. Clearing leaves no handle stored, cancels the stored handle if there was one, and cancels nothing otherwise. |
| `AutoLogout.ClearIdempotent` | src/utils/autoLogoutManager.ts:9-14 | Clearing twice has the same effect as clearing once. |
| `AutoLogout.SetOverwritesWithoutCancel` | src/utils/autoLogoutManager.ts:5-7 | After setting a then b, a clear cancels only b, so a is never cancelled. |
| `AutoLogout.CancelsOnlyStored` | src/utils/autoLogoutManager.ts:9-14 | Every cancelled handle was either stored at the start or set by one of the operations. |
| `AutoLogout.NoDoubleCancel` | src/utils/autoLogoutManager.ts:9-14 | When every handle is set at most once, no handle is ever cancelled twice. |
| `AutoLogout.NoDoubleCancelFromStart` | src/utils/autoLogoutManager.ts:3-14 | Starting from the null handle the manager is created with, no handle is cancelled twice when each handle is set at most once, and every cancelled handle was set by the run. |

## Left out

- Rendering: the JSX, CSS, Layout, the popup, menu, dropdown and search-bar components, and the Bulk Print button, which has no handler.
- The HTTP transport and the print SDK. Their answers are inputs. Alerts are modelled as the `Printing.Outcome` values and their texts. The `console.error` log of a print failure is not modelled.
- Opening the item detail page. It navigates the browser (`window.location.href`).
- Clock-derived dates. The add form's import date and its expiry date four months ahead are parameters of `Forms.NewAddForm`.
- Number parsing of the quantity inputs and fractional quantities. Quantities and ids are integers.
- Decimal.FromInt: prints every integer in its exact digits, which matches JavaScript only for magnitudes up to 2^53 (`Number.MAX_SAFE_INTEGER` + 1). Ids and statuses above 2^53 are not modelled: above 2^53 JavaScript prints the rounded digits of the nearest double, and from 1e21 it uses exponent notation ("1e+21").
- Concurrency. List fetches and reference fetches are answered by events in any order the caller chooses. Nothing fences a stale list answer, matching the code. The refetch after a mutation is modelled as issued, not as answered. Concurrent print jobs are not modelled.
- Unmounting the page. The debounce effect's cleanup on unmount is not modelled.
- Malformed backend answers: a label answer without `zplString`, a default-printer answer without `defaultPrinterUid` (JavaScript would then match a printer lacking a uid), and a non-string `data.message`.
- Printing.PrintLabel: the value the SDK rejects with and the backend error are not kept, because the workflow shows the same alert for every failure.
- The router configuration and its token guard, the login page, and the shared type declarations. The Dafny records reuse the shapes of those type declarations.
