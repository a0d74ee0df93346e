# Birthgram contact and celebration logic, modelled in Dafny

Birthgram is a React Native app. It records people with a significant date, a relationship category and a photo. It lists them, and a separate screen shows who is "celebrating soon": each contact whose date falls between now and five days from now. This project models the logic inside three screens:

- **The `contact` table** (module `ContactStore`, class `ContactTable`). The table holds `rows: seq<Contact>` in `SELECT *` order. It also holds `nextId`, the AUTOINCREMENT counter, and a ghost set `issued` of every id ever handed out. The statements the screens issue are methods: `CREATE TABLE IF NOT EXISTS`, the INSERT, `SELECT *`, `DELETE ... WHERE id = ?` and `SELECT ... WHERE id = ?`. The invariant `Valid()` says that ids strictly increase in table order and that every issued id is below `nextId`. Together these mean an id is never reused, even after a delete.
- **The celebration screen** (module `CelebrationScreen`). The window test is `InWindow`. `Celebrations` is the pure, order-preserving filter `result.filter(...)`. Class `CelebrationView` holds the `celebrations` state: `LoadCelebrations` overwrites it on success and leaves it unchanged when the query fails.
- **The creation form** (module `HomeScreen`, class `ContactForm`). The fields are `name`, `date`, `option`, `imageUri` and `isLoading`, plus a ghost `loadingHistory` of every value passed to `setIsLoading`. `HandleSubmit` is the submit handler: it applies the validation guard, inserts one row, resets the form, and clears `isLoading` in both the success and failure paths.
- **The list screen** (module `ListScreen`, class `ContactList`). It covers fetch (schema step, then list all), pull to refresh, and delete after confirmation.

Representation choices:

- A date is an `int` number of milliseconds since the epoch. In a row, `date: Option<int>` is what `new Date(text)` makes of the stored ISO text; `None` stands for an invalid date.
- The relationship category is the closed datatype `Relationship`. It has the 23 values the picker offers. `Label` and `ParseLabel` map between a category and the text stored in the `option` column.
- The window's upper bound is the reference instant plus `5 * 86_400_000` ms.
- Each storage call takes a `fault` flag standing for an I/O failure; the celebration screen also takes an `openFault` flag for a failure to open the database. A statement on a table that was never created fails with `NoSuchTable`.
- The generic `Sequences.Filter` and `Sequences.IsSubsequence` serve both the celebration filter and the delete.

Behaviour of the code that the model keeps as it is:

- The picker offers 23 categories (screens/HomeScreen.js:181-203).
- No screen issues an UPDATE statement.
- A failed validation shows an alert and returns; nothing is raised.
- The window compares full instants, year and time of day included, so no yearly recurrence applies.

## Model

| member | source | states |
|---|---|---|
| `ContactModel.ParseLabel` | screens/HomeScreen.js:181-203 | reading an `option` text gives a category exactly when the text is that category's picker value; any other text gives none |
| `ContactModel.LabelRoundTrip` | screens/HomeScreen.js:181-203 | a category stored as its picker value reads back as the same category |
| `ContactModel.LabelsDistinct` | screens/HomeScreen.js:181-203 | no two categories share a picker value and no value is empty, so any chosen category passes the `!selectedOption` test |
| `Sequences.Filter` | screens/CelebrationScreen.js:47-50 | the filter result only contains input elements that pass the test, contains every input element that passes, and is no longer than the input |
| `ContactStore.DeleteByIdRemovesOnly` | screens/ListScreen.js:65 | after deleting id k, no row has id k; every row with another id survives, and the survivors are an order-preserving subsequence of the table |
| `ContactStore.DeleteAbsentIdIsNoOp` | screens/ListScreen.js:65 | deleting an id that no row carries leaves the table unchanged |
| `ContactStore.UnboundDeleteKeepsEveryRow` | screens/ListScreen.js:65 | the delete as written, with its placeholder unbound (NULL), leaves every row, including the one whose id was meant |
| `ContactStore.FilterKeepsIdsIncreasing` | screens/HomeScreen.js:44 | deleting rows keeps the ids in strictly increasing table order, so they stay unique |
| `ContactStore.FindById` | screens/ContactDetailScreen.js:18-37 | the lookup returns a row of the table with the requested id, or nothing exactly when no row has that id |
| `ContactStore.FindAfterDelete` | screens/ContactDetailScreen.js:18-37 | once id k is deleted, looking up k finds nothing |
| `ContactStore.ContactTable.constructor` | screens/HomeScreen.js:41-50 | a database without the contact table has no rows and has issued no id; the first id will be 1 |
| `ContactStore.ContactTable.CreateIfNotExists` | screens/HomeScreen.js:41-50 | creating the table is idempotent: the table exists afterwards unless the call failed, and rows, counter and issued ids are unchanged |
| `ContactStore.ContactTable.Insert` | screens/HomeScreen.js:86-90 | on a created table without fault, appends exactly one row with the given fields under an id that is greater than every id issued before, deleted ones included; otherwise it fails with the matching error and changes nothing |
| `ContactStore.ContactTable.ListAll` | screens/ListScreen.js:36-37 | returns exactly the table's rows in table order; fails with NoSuchTable on a missing table and with IoFailure on a fault |
| `ContactStore.ContactTable.DeleteById` | screens/ListScreen.js:65 | on success the rows become the old rows without those carrying id k; on failure nothing changes; counter and issued ids never change |
| `ContactStore.ContactTable.ExecDeleteAsWritten` | screens/ListScreen.js:65 | the statement as issued, with the id never bound, leaves the rows as filtered by a NULL parameter, that is, unchanged |
| `ContactStore.ContactTable.Find` | screens/ContactDetailScreen.js:18-37 | the id query returns the lookup result of the table's rows, or the matching error |
| `CelebrationScreen.Celebrations` | screens/CelebrationScreen.js:47-50 | every returned contact has a valid date d with today <= d <= today + 5 days; every row in that window is returned; the result is an order-preserving subsequence of the rows |
| `CelebrationScreen.WindowBounds` | screens/CelebrationScreen.js:40-44 | the bound instants today and today + 432 000 000 ms are inside the window, and one millisecond beyond either end is outside |
| `CelebrationScreen.OutOfWindowExcluded` | screens/CelebrationScreen.js:40-49 | a row whose date is invalid, earlier than the reference instant (same day or a past year) or past the window is never in the result |
| `CelebrationScreen.CelebrationsAppend` | screens/CelebrationScreen.js:47-50 | the filter of a concatenation is the concatenation of the filters |
| `CelebrationScreen.CelebrationsSingleton` | screens/CelebrationScreen.js:47-50 | a single row is kept exactly when its date is in the window |
| `CelebrationScreen.CelebrationsIdempotent` | screens/CelebrationScreen.js:47-53 | an empty table gives no celebrations, and filtering the result again with the same instant returns it unchanged |
| `CelebrationScreen.TwoContactScenario` | screens/CelebrationScreen.js:47-50 | of a contact two days ahead and one ten days ahead, only the first is celebrating soon |
| `CelebrationScreen.CelebrationView.constructor` | screens/CelebrationScreen.js:26-27 | the screen starts with no celebrations and not refreshing |
| `CelebrationScreen.CelebrationView.LoadCelebrations` | screens/CelebrationScreen.js:33-57 | when the query succeeds the state becomes the window filter of all rows. When the query fails (caught) or the database fails to open (not caught, the call rejects) the state keeps its previous value |
| `CelebrationScreen.CelebrationView.OnRefresh` | screens/CelebrationScreen.js:67-71 | reloads as above. The refresh flag ends lowered exactly when the reload did not reject; an open failure leaves it raised |
| `HomeScreen.InitializeDatabase` | screens/HomeScreen.js:38-53 | the mount step creates the table if absent and leaves existing rows, the id counter and the issued ids as they are |
| `HomeScreen.ContactForm.constructor` | screens/HomeScreen.js:29-34 | the form starts with an empty name, no category, no image, the current date and `isLoading` false |
| `HomeScreen.ContactForm.SetName` | screens/HomeScreen.js:129-134 | typing replaces the name and nothing else |
| `HomeScreen.ContactForm.PickDate` | screens/HomeScreen.js:156-161 | a picked date replaces the date; a dismissed picker keeps it; nothing else changes |
| `HomeScreen.ContactForm.SelectOption` | screens/HomeScreen.js:175-180 | choosing a category sets it and nothing else |
| `HomeScreen.ContactForm.PickImage` | screens/HomeScreen.js:56-67 | a picked image replaces the image; a cancelled picker keeps it; nothing else changes |
| `HomeScreen.ContactForm.HandleSubmit` | screens/HomeScreen.js:69-109 | rejected exactly when name is empty, no category is chosen, or the image is null or empty, and then nothing changes, `isLoading` included. Otherwise `isLoading` is set true and then false. On success exactly one row is inserted, carrying the old name, date, category and image under a never-issued id above all issued ones that then joins the issued ids, and the form resets to empty fields dated now. On failure the table, its issued ids and the fields are unchanged. Whether the table exists never changes |
| `ListScreen.ContactList.constructor` | screens/ListScreen.js:19-21 | the list starts empty, loading, not refreshing |
| `ListScreen.ContactList.FetchContacts` | screens/ListScreen.js:23-43 | the schema step never changes rows or ids; on success the list is exactly the table's rows in table order; on failure the list is unchanged; `isLoading` is false in both cases |
| `ListScreen.ContactList.OnRefresh` | screens/ListScreen.js:49-52 | fetches as above, keeps rows, counter and issued ids, leaves the table created unless the schema step failed, and ends with both flags lowered |
| `ListScreen.ContactList.HandleDelete` | screens/ListScreen.js:54-75 | on cancel nothing changes. On confirm, the rows with id k are deleted when the delete succeeds. After a successful delete the table exists and `isLoading` is false; a successful re-fetch shows a list with no row of id k, and the survivors keep their relative order. The counter and issued ids never change |

## Left out

- Rendering, styles, modals, alerts' texts, navigation (`app/index.js`, `screens/CustomDrawer.js`) and the navigation to the list after a submit: user interface only.
- `ContactContext.js`: it holds two pieces of React state and no logic.
- The greeting-message generator: `getMessageByContactId`, called by the celebration screen, is not part of this model (its definition is not among the files modelled).
- The image picker, date-picker widget, clipboard and the `tel:` dialer: foreign calls. They enter the model only as the values they return. The dialer reads a `phoneNumber` field that the table does not have.
- Date parsing and formatting (`new Date(text)`, `toISOString`, `toLocaleDateString`): platform code. A stored date is the instant it parses to, and `toISOString` then `new Date` is taken to return the same millisecond. The JavaScript date range of plus or minus 8.64e15 ms, beyond which a date is invalid, is not modelled.
- CelebrationScreen.WindowBounds: the upper bound is a fixed 432 000 000 ms. The source adds five calendar days in local time, which differs by an hour across a daylight-saving change.
- CelebrationScreen.CelebrationView.LoadCelebrations: uses one reference instant for both bounds. The source creates two `Date` objects a few milliseconds apart, so its upper bound can sit those milliseconds later.
- SQLite internals: the WAL journal pragma, the database handle, and the 64-bit rowid limit at which AUTOINCREMENT fails. Ids are unbounded `nat`s.
- Asynchrony: statements run one after another. The race between the form's mount-time table creation and an early submit is reduced to `Insert` failing with `NoSuchTable` on a missing table. The re-fetch after a delete, which screens/ListScreen.js:66 does not await, is modelled as running to completion inside `HandleDelete`.
- Which storage step failed (opening, the pragma, the statement) is not distinguished, except on the celebration screen, where opening the database sits outside the `try`. Each other call has one `fault` flag.

## Findings

| source | as written | input that shows it | evidently intended | confidence | as-written member | corrected member |
|---|---|---|---|---|---|---|
| screens/ListScreen.js:65 | The id is passed as a second argument to `execAsync`, which takes only the SQL text and binds no parameters. The `?` placeholder stays unbound, SQLite reads it as NULL, and `id = NULL` is never true, so no row is deleted. | A table holding a row with id 1; the user confirms deleting id 1. The row is still there after the re-fetch. | Delete the row whose id is the confirmed one (a call that binds its parameter) | not executed; medium, because it rests on the documented one-argument form of expo-sqlite's `execAsync` | `ContactStore.ContactTable.ExecDeleteAsWritten` | `ContactStore.ContactTable.DeleteById` |

The as-written half is `ExecDeleteAsWritten` together with `ContactStore.UnboundDeleteKeepsEveryRow`, which proves the unbound statement leaves every row, including the intended one. The corrected half is `DeleteById` together with `ContactStore.DeleteByIdRemovesOnly`. `ListScreen.ContactList.HandleDelete` uses the corrected delete.
