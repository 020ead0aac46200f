# Blood-bank front end: store, session, guard and page logic

This project models the logic of a role-based blood-bank web front end. Donors
book donation appointments at camps. Receivers search the blood inventory and
request units. Administrators edit the inventory, approve or reject requests
and manage camps. All data lives in shared in-memory arrays (the mock store),
which a few service functions read and change in place.

The model has four parts:

- **The mock store and its services** (`MockData`, `AdminService`,
  `ReceiverService`, `DonorService`). The shared arrays are the fields of the
  class `MockData.Store`. Every service that changes them is a method with a
  `modifies` clause. Its `ensures` ties the new arrays to a specification
  function of the old ones (`SetQuantity`, `Deduct`, `SetRequestStatus`,
  `NewCamp`, `UpdateCamps`, `NewRequest`, `NewAppointment`). Lemmas state
  what those functions do: threshold statuses, stock changes, ids, and what
  stays unchanged.
- **The session store** (`AuthContext`). The class `AuthStore` holds the user
  list and the signed-in user. Log-in, registration and log-out are methods
  on it. `LoginOutcome` and `NewUser` specify them.
- **The route guard and role navigation** (`App`, `LoginPage`,
  `RegisterPage`, `Navbar`). These are pure functions from the user and role
  to a decision or a path. The main result is that the guard never redirects
  twice in a row.
- **Page logic** (the other modules, one per page). This covers filters,
  sort orders, counts, validation and the time-slot generator. A page's state
  is an explicit record. A handler that calls a service is a method over the
  store; the other handlers are functions from one state record to the next.

Shared helpers: `Wrappers` (Option), `Text` (ASCII lower case, `includes`,
`split`, `parseInt`, number printing, date order), `Seqs` (`findIndex`,
`filter`, `reduce`, `slice`, a stable sort), `Orders` (the date comparators
of the pages) and `Records` (the record types).

Dates are ISO `YYYY-MM-DD` strings. The pages compare them with
`new Date(a) - new Date(b)`; the model compares them as text, which gives the
same order for that format. Roles are strings because the code compares them
as strings, and the behaviour for an unknown role matters (the guard renders,
the menu is empty, log-in does not navigate).

Where a reader might expect otherwise, the code behaves as follows; the model
follows the code:

- Approving a request does not check that it is Pending. A request can be
  approved again, and each approval subtracts its units again.
- Stock has no floor at zero.
- After an approval leaves more than 15 units, the stock status is left as
  it was.
- The seed inventory already breaks the threshold rule: B- holds 10 units
  marked Critical, AB+ 12 marked Available, and O- 20 marked Low.
- `updateBloodInventory` does not reject negative quantities; only the page
  does.

## Model

| member | source | states |
|---|---|---|
| MockData.SeedInventoryTypes | src/data/mockData.js:5-14 | the seed inventory has 8 entries: A+, A-, B+, B-, AB+, AB-, O+, O-, in that order, with no type twice |
| MockData.SeedIdsSequential | src/data/mockData.js:17-308 | every seed collection (donors, receivers, requests, camps, appointments, history) has ids 1..n in order |
| MockData.SeedCampStatuses | src/data/mockData.js:161-210 | camps 1-3 are Upcoming and camp 4 is Completed |
| MockData.Store.constructor | src/data/mockData.js:5-308 | the shared arrays start as the seed arrays |
| Records.WithoutPassword | src/context/AuthContext.jsx:33-34 | deleting the password keeps the id, profile fields and role |
| Records.AppendSequential | src/services/receiverService.js:21 | appending a record numbered length+1 to a list numbered 1..n keeps the numbering, and no earlier record has the new id |
| AdminService.StatusFor | src/services/adminService.js:38-44 | Critical iff q ≤ 5, Low iff 5 < q ≤ 15, Available iff q > 15 (all three directions) |
| AdminService.SeedViolatesThresholds | src/data/mockData.js:5-14 | the seed inventory is not threshold-consistent: exactly entries 3, 4 and 7 (B-, AB+, O-) carry a status other than the one their quantity calls for |
| AdminService.SeedDistinctTypes | src/data/mockData.js:5-14 | no blood type appears twice in the seed inventory |
| AdminService.TypeIndex | src/services/adminService.js:32 | `findIndex` by type: the first index whose entry has that type, or none iff no entry has it |
| AdminService.SetQuantityEffect | src/services/adminService.js:31-56 | `updateBloodInventory` changes only the first entry of the type, to the new quantity and its threshold status; an unknown type changes nothing; there is no negative check |
| AdminService.SetQuantityKeepsThresholds | src/services/adminService.js:35-44 | setting a quantity keeps a threshold-consistent inventory consistent |
| AdminService.UpdateBloodInventory | src/services/adminService.js:31-57 | the inventory becomes `SetQuantity` of the old one and no other array changes; success with the updated entry, or `Blood type not found` |
| AdminService.RequestIndex | src/services/adminService.js:60 | `findIndex` by id: the first request with the id, or none iff no request has it |
| AdminService.RequestIndexIs | src/services/adminService.js:60 | an index holding the id with none before it is the index found |
| AdminService.StatusAfterApproval | src/services/adminService.js:73-78 | for a new quantity ≤ 15 the status is the threshold status; above 15 the old status is kept |
| AdminService.DeductEffect | src/services/adminService.js:66-79 | an approval lowers the first entry of the type by exactly `units`, with no floor; no other entry changes; an unknown type changes nothing |
| AdminService.DeductKeepsThresholds | src/services/adminService.js:71-78 | if the inventory was threshold-consistent and units ≥ 0, it still is after the approval |
| AdminService.DeductTotal | src/services/adminService.js:71 | an approval lowers the total stock by exactly the approved units |
| AdminService.DeductCanGoNegative | src/services/adminService.js:71-75 | approving 10 units of AB- from the seed stock of 5 leaves -5 units, marked Critical |
| AdminService.RequestStatusEffect | src/services/adminService.js:59-92 | only the status of the first request with the id changes; a non-approval status never touches the inventory; an unknown id changes neither requests nor inventory |
| AdminService.ApproveTwice | src/services/adminService.js:60-71 | with no Pending check, approving the same request twice lowers its type's stock by twice its units |
| AdminService.UpdateRequestStatus | src/services/adminService.js:59-93 | requests become `SetRequestStatus`, inventory becomes `InventoryAfterStatus`, nothing else changes; success with message `Request <status>`, or `Request not found` |
| AdminService.NewCamp | src/services/adminService.js:96-100 | the new camp has id length+1, status Upcoming whatever the form says, and every form field |
| AdminService.NewCampFresh | src/services/adminService.js:97 | a camp appended to a list numbered 1..n gets an unused id and keeps the numbering |
| AdminService.AddDonationCamp | src/services/adminService.js:95-108 | appends exactly that one camp and changes nothing else |
| AdminService.MergeCamp | src/services/adminService.js:114-117 | `{...camp, ...campData}`: every form field overrides; id and status stay |
| AdminService.CampIndex | src/services/adminService.js:111 | `findIndex` by camp id |
| AdminService.UpdateCampsEffect | src/services/adminService.js:110-130 | only the first camp with the id is merged; an unknown id changes nothing |
| AdminService.UpdateDonationCamp | src/services/adminService.js:110-130 | camps become `UpdateCamps` of the old ones and nothing else changes; success with the merged camp, or `Donation camp not found` |
| ReceiverService.SearchBloodByType | src/services/receiverService.js:8-11 | the first entry whose type equals the argument, or none iff no entry has it |
| ReceiverService.GetReceiverRequests | src/services/receiverService.js:13-16 | exactly the requests of that receiver, in store order; each kept entry as many times as the list holds it |
| ReceiverService.NewRequest | src/services/receiverService.js:20-25 | id length+1, status Pending whatever the input says, request date taken from the clock, every other field from the input |
| ReceiverService.NewRequestDate | src/services/receiverService.js:23 | the request date is the calendar-date part (before 'T') of the ISO timestamp |
| ReceiverService.NewRequestFresh | src/services/receiverService.js:21 | over ids 1..n the new id is unused, and the numbering is kept |
| ReceiverService.RequestBlood | src/services/receiverService.js:18-29 | appends exactly the new request; earlier requests and all other arrays are unchanged |
| ReceiverService.UpdateReceiverProfile | src/services/receiverService.js:31-38 | stores nothing; success echoing the data |
| DonorService.GetUpcomingDonationCamps | src/services/donorService.js:8-11 | exactly the Upcoming camps, in order; each kept entry as many times as the list holds it |
| DonorService.GetDonorAppointments | src/services/donorService.js:13-16 | exactly the donor's appointments, in order; each kept entry as many times as the list holds it |
| DonorService.GetDonorHistory | src/services/donorService.js:18-21 | exactly the donor's donations, in order; each kept entry as many times as the list holds it |
| DonorService.NewAppointment | src/services/donorService.js:25-29 | id length+1, status Scheduled whatever the input says, every input field |
| DonorService.NewAppointmentFresh | src/services/donorService.js:26 | over ids 1..n the new id is unused |
| DonorService.BookAppointment | src/services/donorService.js:23-33 | appends exactly the new appointment; camps are neither read nor changed, so there is no capacity check |
| DonorService.UpdateDonorProfile | src/services/donorService.js:35-42 | stores nothing; success echoing the data |
| AuthContext.SeedUsersShape | src/context/AuthContext.jsx:8-12 | three users with ids 1..3, one donor, one receiver and one admin, all with password `password` |
| AuthContext.FindUser | src/context/AuthContext.jsx:27-30 | the first user whose e-mail equals the input ignoring case and whose password matches exactly |
| AuthContext.LoginOutcomeSpec | src/context/AuthContext.jsx:27-50 | log-in succeeds iff some user matches and yields the first match without its password; every failure carries `Invalid email or password` |
| AuthContext.LoginIgnoresEmailCase | src/context/AuthContext.jsx:29 | e-mails equal up to case give the same outcome |
| AuthContext.LoginNeedsExactPassword | src/context/AuthContext.jsx:29 | a password matching no stored password fails, whatever the e-mail |
| AuthContext.DemoCredentials | src/context/AuthContext.jsx:9-11 | each demo account's credentials sign in as that seed user; an upper-case e-mail works too |
| AuthContext.NewUser | src/context/AuthContext.jsx:55-59 | id length+1, the given role, and the given profile and password |
| AuthContext.LoginAfterRegister | src/context/AuthContext.jsx:53-61 | with no duplicate-email check, logging in after registering finds an earlier matching user if there is one, else the new user |
| AuthContext.NewUserFresh | src/context/AuthContext.jsx:56 | over ids 1..n the new user's id is unused |
| AuthContext.AuthStore.constructor | src/context/AuthContext.jsx:8-16 | the seed users and nobody signed in |
| AuthContext.AuthStore.Login | src/context/AuthContext.jsx:27-51 | returns `LoginOutcome`; on success the session holds that user without the password, on failure it is unchanged; the user list never changes |
| AuthContext.AuthStore.Register | src/context/AuthContext.jsx:53-76 | appends the new user (password kept in the list) and signs in as it without the password; always succeeds |
| AuthContext.AuthStore.Logout | src/context/AuthContext.jsx:78-80 | nobody is signed in; the user list is unchanged |
| App.RoleHome | src/App.tsx:52-58 | a path exactly for donor, receiver and admin, and it is `/` plus the role |
| App.PrivateRouteCases | src/App.tsx:42-62 | no user: redirect to `/login` for every role; role matches or no role required: render; another known role: redirect to that role's home; an unknown role: render |
| App.RoutesGuardedByPrefix | src/App.tsx:76-162 | every route is tagged with a role exactly when its path starts with `/` plus that role |
| App.DonorRoutesTagged | src/App.tsx:81-105 | every `/donor*` route carries the donor tag |
| App.ReceiverRoutesTagged | src/App.tsx:108-127 | every `/receiver*` route carries the receiver tag |
| App.AdminRoutesTagged | src/App.tsx:130-159 | every `/admin*` route carries the admin tag |
| App.PublicRoutesTagged | src/App.tsx:76-78 | the public and catch-all routes carry no role |
| App.RouteAt | src/App.tsx:74-163 | the route table's entry for a path, or none when the table has no such path |
| App.PrefixAdmits | src/App.tsx:50-61 | a route under a known role's prefix is admitted for a user of that role |
| App.NoRedirectLoop | src/App.tsx:50-58 | every redirect of a signed-in user lands on a route of the table that the guard admits for that same user |
| App.LoginRoutePublic | src/App.tsx:46-48 | the log-in page, where a signed-out user is sent, is an unguarded route |
| LoginPage.Validate | src/pages/auth/Login.jsx:21-24 | an error iff e-mail or password is empty |
| LoginPage.AfterLogin | src/pages/auth/Login.jsx:31-42 | success navigates to the role's home (none for an unknown role); failure shows the message `login` returned |
| LoginPage.SubmitOutcomeSpec | src/pages/auth/Login.jsx:17-48 | empty fields give the presence error; failure shows `Invalid email or password`; success goes to a dashboard the guard admits for the user just signed in |
| LoginPage.DemoButtonsNavigate | src/pages/auth/Login.jsx:150-175 | each demo button's credentials open that role's dashboard |
| LoginPage.HandleSubmit | src/pages/auth/Login.jsx:17-48 | `login` is called only when both fields are filled; otherwise the session is unchanged |
| RegisterPage.ValidateSpec | src/pages/auth/Register.jsx:32-45 | missing field first, then password mismatch, then a donor's missing blood type; the form passes iff all three checks pass |
| RegisterPage.AgeValue | src/pages/auth/Register.jsx:54 | the parsed age, or 0 when the text is not a number |
| RegisterPage.AgeValueOfNumber | src/pages/auth/Register.jsx:54 | a printed integer reads back as itself |
| RegisterPage.AgeValueNotNumber | src/pages/auth/Register.jsx:54 | blank or non-numeric text gives 0 |
| RegisterPage.AgeValueIgnoresTail | src/pages/auth/Register.jsx:54 | text after the digits is ignored |
| RegisterPage.UserDataSpec | src/pages/auth/Register.jsx:50-65 | donors' data carries the blood type and no medical fields; others' carries medical condition and hospital and no blood type; common fields are always passed |
| RegisterPage.PathAfterRegister | src/pages/auth/Register.jsx:69-75 | `/donor` exactly for donors, `/receiver` for everyone else |
| RegisterPage.RegisterLandsOnAdmittedRoute | src/pages/auth/Register.jsx:69-75 | for a donor or receiver, the post-registration path is a route the guard admits for the new user |
| RegisterPage.HandleSubmit | src/pages/auth/Register.jsx:27-84 | a failed check shows its message and changes nothing; otherwise the new user is appended and signed in, and the page navigates by user type |
| RegisterPage.RegisteredCanLogIn | src/pages/auth/Register.jsx:50-67 | right after registering, the same e-mail and password log in |
| Navbar.MenuShape | src/components/layout/Navbar.jsx:19-53 | signed out: Home, Login, Register; donor 5 items, receiver 4, admin 6, each first `Dashboard` at the role's home, all under `/` plus the role; any other role: none |
| Navbar.MenuFollowsRoutes | src/components/layout/Navbar.jsx:22-52 | each menu lists, in order, the paths of one section of the route table |
| Navbar.MenuLinksAdmitted | src/components/layout/Navbar.jsx:19-53 | every menu link leads to a route the guard admits for the user who sees it |
| Navbar.HandleLogout | src/components/layout/Navbar.jsx:13-16 | the session is cleared, then the page goes to `/login` |
| ManageRequests.FilterRequestsSpec | src/pages/admin/ManageRequests.jsx:62-81 | an order-preserving subsequence; a request is kept iff it passes the status tab (always on `all`) and the search (always when empty); `all` with no search keeps everything |
| ManageRequests.PendingTab | src/pages/admin/ManageRequests.jsx:68 | the `pending` tab keeps exactly the Pending requests |
| ManageRequests.PendingTie | src/pages/admin/ManageRequests.jsx:211-214 | two Pending requests of equal urgency compare as 0, whatever their dates |
| ManageRequests.RequestLeTotalPreorder | src/pages/admin/ManageRequests.jsx:205-218 | the comparator orders every pair and is transitive |
| ManageRequests.PendingTiesKeepListOrder | src/pages/admin/ManageRequests.jsx:204-218 | Pending requests of one urgency are displayed in the order the list holds them, because the sort is stable |
| ManageRequests.DisplayOrder | src/pages/admin/ManageRequests.jsx:204-218 | the displayed list is a permutation of the list it sorts; Pending before the rest; Pending by urgency Critical to Low; the rest newest first |
| ManageRequests.ClickAction | src/pages/admin/ManageRequests.jsx:83-101 | selects the request and opens the dialog for that action; the list is unchanged |
| ManageRequests.ActionStatus | src/pages/admin/ManageRequests.jsx:106 | Approved iff the action is `approve`, otherwise Rejected; never Pending |
| ManageRequests.MarkStatusMatchesStore | src/pages/admin/ManageRequests.jsx:113-115 | when no id repeats, the page's update of its copy equals the store's `updateRequestStatus` update |
| ManageRequests.MarkStatusOnlyTouchesId | src/pages/admin/ManageRequests.jsx:113-115 | only the status field of the selected id's requests changes |
| ManageRequests.HandleConfirmAction | src/pages/admin/ManageRequests.jsx:103-139 | with nothing selected nothing happens; otherwise the store is updated, the page's copy changes only on success, and selection and dialog are cleared either way |
| ManageRequests.CountByStatus | src/pages/admin/ManageRequests.jsx:306-324 | the three counts add up to the number of requests; each card is positive iff some request has its status |
| ManageRequests.ConfirmMovesOneCount | src/pages/admin/ManageRequests.jsx:306-324 | confirming an action on a Pending request moves one from the Pending card to the Approved or the Rejected card; the other card is unchanged |
| ManageInventory.HandleEdit | src/pages/admin/ManageInventory.jsx:36-39 | opens the row with the quantity's decimal text in the box |
| ManageInventory.ParseEdit | src/pages/admin/ManageInventory.jsx:42-59 | empty or unreadable text: `Please enter a valid number`; negative: `Quantity cannot be negative`; otherwise the quantity `parseInt` reads |
| ManageInventory.ParseEditOfQuantity | src/pages/admin/ManageInventory.jsx:38-59 | a quantity written into the box reads back as itself, or is refused when negative |
| ManageInventory.SaveEffectOfQuantity | src/pages/admin/ManageInventory.jsx:51-62 | saving a box holding n sets exactly n through the service |
| ManageInventory.LocalUpdateMatchesStore | src/pages/admin/ManageInventory.jsx:62-68 | with distinct types, the page's copy after a save equals the store's inventory |
| ManageInventory.HandleSave | src/pages/admin/ManageInventory.jsx:41-92 | rejected input shows its message and leaves the page and store as they were; once the service is called the editor is cleared; on success only that type's row changes |
| ManageInventory.HandleIncrement | src/pages/admin/ManageInventory.jsx:94-98 | as written: the store gets whatever the edit box held before the click, not the increased quantity; a refused box leaves the editor open on the increased quantity with the refusal's message; a valid box is saved as `handleSave` saves it, closing the editor and updating the page's rows of the type |
| ManageInventory.IncrementReadsStaleBox | src/pages/admin/ManageInventory.jsx:94-98 | with no row open the increment changes no stock, while the intended save would set A+ from 25 to 26 |
| ManageInventory.SaveQuantity | src/pages/admin/ManageInventory.jsx:36-92 | opening the editor on a quantity and saving it stores that quantity, or refuses a negative one |
| ManageInventory.HandleIncrementIntended | src/pages/admin/ManageInventory.jsx:94-98 | the increment as intended: the stock becomes the current quantity plus one whenever that is not negative |
| ManageInventory.HandleDecrement | src/pages/admin/ManageInventory.jsx:100-106 | does nothing at quantity ≤ 0; otherwise it reads the edit box as it was before the click, as the increment does, with the same page state and message in both the refused and the valid case |
| ManageInventory.HandleDecrementIntended | src/pages/admin/ManageInventory.jsx:100-106 | the decrement as intended: one unit less when the quantity is positive, nothing otherwise |
| ManageInventory.DecrementEnabledButIdle | src/pages/admin/ManageInventory.jsx:100-106 | the button (line 207) is disabled only at 0; on a negative row it is enabled but does nothing |
| ManageInventory.CriticalItems | src/pages/admin/ManageInventory.jsx:224-227 | exactly the entries whose stored status is Critical, in order; each kept entry as many times as the list holds it |
| ManageInventory.SeedCriticalPanel | src/pages/admin/ManageInventory.jsx:224-227 | on the seed data the panel lists two entries |
| ManageCamps.LoadCamps | src/pages/admin/ManageCamps.jsx:33-52 | as written, the page's list is the store's own array |
| ManageCamps.LoadCampsCopy | src/pages/admin/ManageCamps.jsx:33-52 | as intended, the page keeps a copy of the store's array |
| ManageCamps.CurrentList | src/pages/admin/ManageCamps.jsx:38 | a page sharing the store's array sees the store's changes |
| ManageCamps.OpenAddDialog | src/pages/admin/ManageCamps.jsx:62-75 | nothing being edited, blank form with 50 slots, dialog open |
| ManageCamps.PrefillForm | src/pages/admin/ManageCamps.jsx:79-88 | every field copied from the camp; a slot count of 0 falls back to 50 |
| ManageCamps.OpenEditDialog | src/pages/admin/ManageCamps.jsx:77-90 | the camp being edited and its prefilled form, dialog open |
| ManageCamps.MissingFields | src/pages/admin/ManageCamps.jsx:96-97 | exactly the required fields left empty, in order |
| ManageCamps.MissingFieldsNone | src/pages/admin/ManageCamps.jsx:96-99 | a form passes iff name, location, date, time, organizer and contact phone are all filled; slots and description are free |
| ManageCamps.EmptyFormRefused | src/pages/admin/ManageCamps.jsx:62-99 | the blank add form misses all six required fields |
| ManageCamps.HandleSubmit | src/pages/admin/ManageCamps.jsx:92-152 | a missing field refuses and changes nothing; an edit merges into the store and the page; an add appends to the store and then to the page's list |
| ManageCamps.AddOnLoadedPageDuplicates | src/pages/admin/ManageCamps.jsx:122-125 | as written, after the load of line 38, the first camp added after loading is listed twice |
| ManageCamps.SeedAddShowsSix | src/pages/admin/ManageCamps.jsx:122-125 | on the seed camps the page then shows six entries for five camps |
| ManageCamps.AddOnCopyStaysInSync | src/pages/admin/ManageCamps.jsx:122-125 | with a copied list, the page's list after an add equals the store's |
| ManageCamps.MergeAllMatchesStore | src/pages/admin/ManageCamps.jsx:113-118 | with distinct ids the page's edit equals the store's |
| ManageCamps.EditOnLoadedPageAgrees | src/pages/admin/ManageCamps.jsx:113-118 | editing on a page that shares the store's array is harmless: merging twice is merging once |
| ManageCamps.SeedCampIdsDistinct | src/data/mockData.js:161-210 | the seed camps have distinct ids |
| ManageCamps.DisplayedCamps | src/pages/admin/ManageCamps.jsx:175-176 | every camp once, in ascending date order |
| DonationCamps.JsRem | src/pages/donor/DonationCamps.jsx:100 | JavaScript `%`: the remainder takes the sign of the dividend |
| DonationCamps.FormattedHour | src/pages/donor/DonationCamps.jsx:100 | 1..12 for hours ≥ 0; hours 1-12 unchanged; 13-24 lose 12; every multiple of 12, 0 included, shows as 12 |
| DonationCamps.FormattedHourCycle | src/pages/donor/DonationCamps.jsx:100 | for every hour ≥ 0, the shown hour is the one in 1..12 that agrees with it modulo 12, and it is 12 exactly when the hour is a multiple of 12 |
| DonationCamps.SlotsBetweenShape | src/pages/donor/DonationCamps.jsx:99-105 | 2·max(0, end−start) labels; label k is hour start + k/2, on the hour for even k and at half past for odd k |
| DonationCamps.PushSlots | src/pages/donor/DonationCamps.jsx:99-105 | the loop pushes exactly `SlotsBetween(start, end)` |
| DonationCamps.GenerateTimeSlots | src/pages/donor/DonationCamps.jsx:85-108 | empty with no camp; a failure when the time has no ` - `; no slots when a time does not parse; otherwise the slots between the two hours |
| DonationCamps.SlotHourText | src/pages/donor/DonationCamps.jsx:100-104 | the label's text before ':' is the formatted hour and parses as it |
| DonationCamps.SlotPeriod | src/pages/donor/DonationCamps.jsx:101 | a label contains `PM` iff its hour is ≥ 12 |
| DonationCamps.SlotLabelReadsBack | src/pages/donor/DonationCamps.jsx:92-104 | for hours 1-23 a slot label read back as a time gives its hour |
| DonationCamps.SplitTimeRange | src/pages/donor/DonationCamps.jsx:88 | `"a - b".split(' - ')` gives `a` and the text of `b` up to any further ` - ` |
| DonationCamps.ToHourOf | src/pages/donor/DonationCamps.jsx:92-96 | only the number before ':' is read; 12 is added when `PM` appears and the hour is not 12 |
| DonationCamps.MinutesIgnored | src/pages/donor/DonationCamps.jsx:92-93 | `9:30 AM` reads as hour 9 |
| DonationCamps.MidnightReadsAsNoon | src/pages/donor/DonationCamps.jsx:93-96 | `12:00 AM` reads as hour 12, the same as `12:00 PM` |
| DonationCamps.HalfPastTimeSplits | src/pages/donor/DonationCamps.jsx:88 | `9:30 AM - 5:00 PM` splits into its two times |
| DonationCamps.HalfPastStartSlots | src/pages/donor/DonationCamps.jsx:92-105 | a camp open from 9:30 AM still gets the 9:00 AM slot first, the same slots as one open from 9:00 |
| DonationCamps.NineAmLabel | src/pages/donor/DonationCamps.jsx:100-103 | hour 9 prints as `9:00 AM` |
| DonationCamps.FivePmLabel | src/pages/donor/DonationCamps.jsx:100-103 | hour 17 prints as `5:00 PM` |
| DonationCamps.NineToFiveHours | src/pages/donor/DonationCamps.jsx:92-96 | `9:00 AM` reads as 9 and `5:00 PM` as 17 |
| DonationCamps.SeedTimeSplits | src/data/mockData.js:167 | the seed time `9:00 AM - 5:00 PM` splits into `9:00 AM` and `5:00 PM` |
| DonationCamps.NineToFiveSlots | src/pages/donor/DonationCamps.jsx:85-108 | a camp open 9:00 AM - 5:00 PM gets the slots of hours 9 to 16 |
| DonationCamps.EightHourSlots | src/pages/donor/DonationCamps.jsx:99-105 | eight hours give 16 labels, from `lo:00` to `(lo+7):30`; for camp 1, `9:00 AM` to `4:30 PM` |
| DonationCamps.SeedCampOneHours | src/data/mockData.js:167 | camp 1 is open 9:00 AM - 5:00 PM |
| DonationCamps.NoDashNoSplit | src/pages/donor/DonationCamps.jsx:88 | a text without '-' is its own first piece |
| DonationCamps.NoPNoPM | src/pages/donor/DonationCamps.jsx:93 | a text without 'P' does not contain `PM` |
| DonationCamps.DigitsHaveNoLetters | src/pages/donor/DonationCamps.jsx:100 | digits contain neither ':' nor 'P' |
| DonationCamps.SeedBookable | src/pages/donor/DonationCamps.jsx:158-165 | of the seed camps exactly the first three can be booked |
| DonationCamps.BookingDialogFresh | src/pages/donor/DonationCamps.jsx:40-44 | opening the dialog forgets an earlier time and an earlier camp, so a confirmation books the camp last clicked, and only after a time is chosen again; the camp list is untouched |
| DonationCamps.BookingData | src/pages/donor/DonationCamps.jsx:57-64 | the appointment carries the user's id and name, the camp's id, name and date, and the chosen time |
| DonationCamps.ConfirmBooking | src/pages/donor/DonationCamps.jsx:46-82 | no time chosen: nothing booked; otherwise exactly one appointment is appended and the dialog closes; camps are untouched |
| BloodSearch.LoadedPage | src/pages/receiver/BloodSearch.jsx:19-33 | units 1, urgency Medium, empty reason, hospital the user's or blank, the whole inventory shown |
| BloodSearch.HandleSearch | src/pages/receiver/BloodSearch.jsx:49-57 | no type: the whole inventory; otherwise exactly the entries of that type, in order; each kept entry as many times as the list holds it |
| BloodSearch.SearchSingleEntry | src/pages/receiver/BloodSearch.jsx:55 | when one entry has the type, the search shows that entry alone |
| BloodSearch.SearchSeedType | src/pages/receiver/BloodSearch.jsx:55 | searching a seed blood type shows exactly its one entry |
| BloodSearch.RequestEnabledAboveFive | src/pages/receiver/BloodSearch.jsx:166 | on a threshold-consistent inventory a type can be requested iff more than 5 units are stocked |
| BloodSearch.SeedRequestable | src/pages/receiver/BloodSearch.jsx:166 | in the seed data exactly B- and AB- are disabled |
| BloodSearch.RequestDialogOpens | src/pages/receiver/BloodSearch.jsx:59-62 | the opened dialog requests the type of the clicked row and leaves the search results alone; a reset afterwards forgets the choice |
| BloodSearch.RequestFromDialog | src/pages/receiver/BloodSearch.jsx:77-85 | the request carries the user's id and name, the chosen type, the units, hospital, urgency and reason |
| BloodSearch.ResetRestoresLoadedDialog | src/pages/receiver/BloodSearch.jsx:94-98 | after a submission the dialog is as it was when the page loaded, the search kept; resetting twice is resetting once |
| BloodSearch.SubmitRequest | src/pages/receiver/BloodSearch.jsx:64-109 | an empty hospital or reason sends nothing; otherwise exactly one Pending request is appended and the dialog is reset |
| BloodSearch.SubmittedRequestListed | src/pages/receiver/BloodSearch.jsx:87 | a submitted request joins the end of the receiver's own list, Pending, with the next id |
| AdminDashboard.Stats | src/pages/admin/AdminDashboard.jsx:47-49 | donor and receiver totals; the critical count is positive iff some entry is marked Critical; the pending count is positive iff some request is Pending; non-negative stock gives non-negative units |
| AdminDashboard.ApprovalLowersTotalUnits | src/pages/admin/AdminDashboard.jsx:47 | an approval lowers the Blood Units card by exactly its units; a rejection leaves it |
| AdminDashboard.SeedStats | src/pages/admin/AdminDashboard.jsx:47-49 | on the seed data: 162 units, 2 critical types, 1 pending request |
| AdminDashboard.SumNonNegativeAll | src/pages/admin/AdminDashboard.jsx:47 | non-negative quantities add up to a non-negative total |
| AdminDashboard.SeedUnits | src/pages/admin/AdminDashboard.jsx:47 | the seed stock totals 162 units |
| AdminDashboard.SeedCritical | src/pages/admin/AdminDashboard.jsx:48 | two seed entries are marked Critical |
| AdminDashboard.SeedPending | src/pages/admin/AdminDashboard.jsx:49 | one seed request is Pending |
| AdminDashboard.RecentRequests | src/pages/admin/AdminDashboard.jsx:143-145 | min(3, n) requests taken from the list with no entry repeated beyond its count there, newest first, none older than any left out |
| DonorDashboard.LoadDonorView | src/pages/donor/DonorDashboard.jsx:24-32 | the donor's own appointments and donations, and the first min(3, n) of the n Upcoming camps in store order |
| DonorDashboard.Counts | src/pages/donor/DonorDashboard.jsx:60-66 | total donations is the history's length; the scheduled count is positive iff some appointment is Scheduled |
| DonorDashboard.NextAppointment | src/pages/donor/DonorDashboard.jsx:81-86 | none iff nothing is Scheduled; otherwise a Scheduled appointment with no earlier Scheduled one |
| DonorDashboard.RecentDonations | src/pages/donor/DonorDashboard.jsx:122-124 | min(3, n) donations taken from the history with no entry repeated beyond its count there, newest first, none older than any left out |
| ReceiverDashboard.Counts | src/pages/receiver/ReceiverDashboard.jsx:58-70 | total is the receiver's list length; approved + pending + rejected = total, so approved + pending ≤ total |
| ReceiverDashboard.SubmissionCounted | src/pages/receiver/ReceiverDashboard.jsx:58-70 | a new Pending request adds one to the total and to Pending, none to Approved |
| ReceiverDashboard.RecentRequests | src/pages/receiver/ReceiverDashboard.jsx:81-83 | min(3, n) of the receiver's requests with no entry repeated beyond its count there, newest first, none older than any left out |
| ManageDonors.FilteredDonors | src/pages/admin/ManageDonors.jsx:31-42 | empty term: all donors; otherwise exactly those whose name, e-mail or blood type contains the term ignoring case, as an order-preserving subsequence; each kept entry as many times as the list holds it |
| ManageDonors.SearchIgnoresCase | src/pages/admin/ManageDonors.jsx:36-38 | the term's letter case makes no difference |
| ManageDonors.TotalDonations | src/pages/admin/ManageDonors.jsx:166 | the total is non-negative when every donor's count is |
| ManageDonors.TotalDonationsAdds | src/pages/admin/ManageDonors.jsx:166 | the card is the sum of the donors' counts: 0 for no donors, one more donor adds exactly that donor's count, two lists add up |
| ManageDonors.TotalNonNegative | src/pages/admin/ManageDonors.jsx:166 | non-negative counts give a non-negative sum |
| ManageDonors.SeedTotals | src/pages/admin/ManageDonors.jsx:157-166 | the seed has 4 donors with 28 donations |
| ManageReceivers.FilteredReceivers | src/pages/admin/ManageReceivers.jsx:31-43 | empty term: all receivers; otherwise exactly those whose name, e-mail, or present blood type or hospital contains the term, in order; each kept entry as many times as the list holds it |
| ManageReceivers.MissingFieldsNotSearched | src/pages/admin/ManageReceivers.jsx:38-39 | a receiver without blood type and hospital is found only by name or e-mail |
| ManageReceivers.BloodTypeShown | src/pages/admin/ManageReceivers.jsx:115 | `Unknown` when the blood type is missing; a non-empty blood type is shown as it is |
| DonationHistory.Rows | src/pages/donor/DonationHistory.jsx:18-59 | a permutation of the donor's own donations, newest first; empty iff the donor has none |
| DonorAppointments.Cards | src/pages/donor/DonorAppointments.jsx:23-52 | a permutation of the donor's own appointments of any status, earliest first; empty iff the donor has none |
| DonorAppointments.BookingShown | src/services/donorService.js:23-33 | a new booking appears among the donor's cards |
| RequestHistory.Cards | src/pages/receiver/RequestHistory.jsx:24-53 | a permutation of the receiver's own requests, newest first; empty iff the receiver has none |
| Orders.SortNewest | src/pages/receiver/RequestHistory.jsx:52 | a newest-first sort keeps every element and orders the dates descending |
| Orders.SortEarliest | src/pages/donor/DonorAppointments.jsx:51 | an earliest-first sort keeps every element and orders the dates ascending |
| Orders.NewestTake | src/pages/admin/AdminDashboard.jsx:144-145 | the first n of a newest-first sort form a sub-multiset of the list, in descending date order, none older than any left out |

## Findings

| source | as written | input that shows it | evidently intended | confidence | as-written member | corrected member |
|---|---|---|---|---|---|---|
| src/pages/admin/ManageCamps.jsx:38, 122-125 | the page keeps the store's own camp array; `addDonationCamp` pushes onto it, and the page then appends the returned camp again | seed camps, then add any valid camp: the page lists 6 entries for 5 camps, the new one twice | the new camp is listed once, so the page's list equals the store's | high (not executed) | ManageCamps.AddOnLoadedPageDuplicates | ManageCamps.AddOnCopyStaysInSync |
| src/pages/admin/ManageInventory.jsx:94-106 | the increment and decrement buttons call `handleSave` right after `setEditValue`, so the save reads the edit box from before the click | A+ at 25 with no row open: increment shows "Please enter a valid number" and the stock stays 25 | the stock becomes 26 (one more, or one fewer for decrement) | medium (not executed) | ManageInventory.IncrementReadsStaleBox | ManageInventory.HandleIncrementIntended |

## Left out

- Browser storage is left out. The session is the `currentUser` field; nothing is read from or written to storage. The guard receives the user it would have read as a parameter.
- Toasts, loading flags, dialogs' titles and descriptions, icons, badge colours and all other markup are left out.
- Promises are left out: the services resolve at once, so they are direct calls. The `catch` branches only report errors that the services never raise.
- Router calls are left out: navigation is a returned path.
- The clock in `requestBlood` is a parameter (`nowIso`, the ISO timestamp).
- Date parsing is left out: dates are compared as ISO `YYYY-MM-DD` text, which is chronological for that format.
- Case folding is ASCII only. `parseInt` is a decimal prefix parser; NaN is `None`.
- BloodSearch.SubmitRequest: when the units box is not a number, the page sends a request with units NaN. The model has no NaN, so it sends nothing in that case.
- In-place sorts are left out. The admin dashboard and the camps page sort the shared arrays in place. So does the request list: after loading, its filtered list is the store's own array (ManageRequests.jsx:44-46), and the first render sorts it before the filter effect replaces it with a copy. This reorders the store's own arrays and so changes which entry a later `findIndex` meets first. The model sorts into a new sequence.
- The React timing of the increment and decrement buttons is modelled only as the stale read stated under Findings, not as re-render semantics.
- The input handlers that copy form fields into state are left out. The model takes the resulting form record as given; for example, a camp's slot count typed into the form is taken as a number rather than as text.
- The blood compatibility table on the search page and the hard-coded statistics on the donor and receiver lists are constants that compute nothing.
- The profile pages, the home page and the presentational components are left out. The profile services they call are modelled (`UpdateDonorProfile`, `UpdateReceiverProfile`).
- The service getters that return a whole array (`getAllDonors`, `getBloodInventory`, `getDonationCamps`, …) are the store's fields themselves.
- The query-client, tooltip and toaster wrapper around the routes is left out.
