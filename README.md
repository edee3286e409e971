# Waste-collection dashboard: a Dafny model of its domain logic

The application is a role-based dashboard for scheduling waste collections.
Clients request collections. Collection companies accept and complete them.
Administrators watch the totals. This project models the parts that are logic
rather than rendering:

- **Record store** (`DataService`). Users, collections and reports are each
  kept under one browser-storage key and read back whole. A read falls back to
  the seed data when no window exists or the key holds nothing. A save is an
  upsert: it replaces the first record with the same id, or appends. Here the
  storage is the class `DataService.LocalStorage`, which holds an optional
  sequence per key plus the optional session id.
- **Session** (`AuthService`). The session is a stored user id, resolved
  against the user store on every read. `login` takes the first user with the
  given email and accepts the one shared password. `register` saves a new user
  and signs them in; `logout` clears it.
- **Collection lifecycle.** A collection is created `programada` with no
  company by the request form. A company accepts it, which sets `companyId`,
  and later completes it, which sets `completada` and `completedAt`. The
  company and client dashboards are classes whose fields are the lists they
  keep in memory. Their handlers are methods that update those lists and the
  store.
- **Statistics.** These are the quick-stats cards of the three dashboards and
  the reports tab. The reports tab applies a date-window and waste-type filter,
  counts, computes a rounded completion rate and a rounded average, builds
  group-by sums by type, month, location and status, and ranks the top ten
  locations with truncated labels.

The modules follow the source files:

| file | models |
|---|---|
| `types.dfy` | the records and enumerations |
| `seqs.dfy` | the array operations the code uses: `filter`, `find`, `findIndex`, `reduce`, upsert, `map` with replacement, `slice` |
| `grouping.dfy` | the `Record<string, number>` accumulators |
| `ranking.dfy` | the stable descending sort |
| `text.dfy` | the string helpers |
| `rounding.dfy` | `Math.round` of a ratio |
| `data_service.dfy` | the record store |
| `auth_service.dfy` | the session |
| `collection_form.dfy` | the request form |
| `completion.dfy` | the figures shared by all dashboards |
| `company_dashboard.dfy` | the company's view |
| `client_dashboard.dfy` | the client's view |
| `admin_dashboard.dfy` | the administrator's view |
| `reports_dashboard.dfy` | the reports tab |

JavaScript truthiness is kept where the code relies on it:

- `!c.companyId` also holds for an empty company id.
- `userId ? … : …` treats the empty id as "no user".
- `notes || undefined` drops empty notes.
- `client?.name || "No asignado"` and `company.company || company.name` fall
  back on empty strings.

`Math.round(a / b)` with `b > 0` is `(2a + b) div 2b`, i.e. the nearest
integer with halves rounded up. For the completion rate this is
`(200·completed + total) div 2·total`. A `Record<string, number>` built by
`reduce` is an association list `seq<(K, int)>` in first-insertion order;
this holds for keys that are neither index-like nor names inherited from
`Object.prototype` (see "## Left out").

## Model

| member | source | states |
|---|---|---|
| `DataService.GetUsers` | lib/data-utils.ts:11-15 | without a window, or with nothing stored, the seed users; otherwise the stored list |
| `DataService.GetCollections` | lib/data-utils.ts:38-42 | the same seed fallback for collections |
| `DataService.GetReports` | lib/data-utils.ts:63-67 | the same seed fallback for reports |
| `DataService.GetUserById` | lib/data-utils.ts:17-19 | a user is found iff some stored user has the id; the one found has it and no stored user before it does |
| `DataService.GetUserByEmail` | lib/data-utils.ts:21-23 | a user is found iff some stored user has the email; the one found has it and no stored user before it does |
| `DataService.SaveUser` | lib/data-utils.ts:25-35 | without a window nothing changes; otherwise the stored users become the upsert of the list read, no other key or the session changes, and `GetUserById(user.id)` returns the user |
| `DataService.SaveCollection` | lib/data-utils.ts:50-60 | the same upsert for collections; a no-op without a window; users, reports and session unchanged |
| `DataService.GetCollectionsByUserId` | lib/data-utils.ts:44-48 | exactly the stored collections whose client or company is the id, each as many times as it is stored, as a subsequence in stored order |
| `DataService.GetReportsByUserId` | lib/data-utils.ts:69-71 | exactly the stored reports of the user, each as many times as it is stored, as a subsequence in stored order |
| `DataService.StatsScope` | lib/data-utils.ts:74 | all collections when no user (or the empty id) is given; otherwise exactly those involving the user, with their multiplicities, as a subsequence in stored order |
| `DataService.GenerateCollectionStats` | lib/data-utils.ts:73-103 | the completed count is the number of `completada` collections in scope; total quantity sums completed collections only; `byType` and `byMonth` hold exactly the types and months present in scope, with distinct keys in first-seen order, and their values sum to the quantity of all collections in scope; each type's and each month's entry is the quantity of exactly its collections |
| `AuthService.GetCurrentUser` | lib/auth.ts:12-19 | a user iff there is a window, a session, and a stored user with the session's id, and then the first such user |
| `AuthService.IsAuthenticated` | lib/auth.ts:55-57 | true iff there is a window, a session, and a stored user with the session's id |
| `AuthService.CheckCredentials` | lib/auth.ts:21-24 | a user iff the password is the shared one and some stored user has the email; the result is the first user with that email |
| `AuthService.Login` | lib/auth.ts:21-31 | returns the credential check's result; the session points at that user on success with a window and is otherwise unchanged; the store is unchanged |
| `AuthService.NewUser` | lib/auth.ts:34-38 | the form data unchanged plus the given id and creation time |
| `AuthService.Register` | lib/auth.ts:33-47 | the new user is upserted into the users, the session points at it, and `GetCurrentUser` then returns it |
| `AuthService.Logout` | lib/auth.ts:49-57 | the session is cleared, so there is no current user and `isAuthenticated` is false |
| `AuthService.RegisterKeepsOlderAccount` | lib/auth.ts:33-46 | with no duplicate-email check, registering a used email under a fresh id leaves the older account as the one found by email and signed in by login; the new user is never returned |
| `AuthService.RegisterThenLogin` | lib/auth.ts:21-46 | a user registered with a fresh id and an unused email is the one login returns |
| `Seqs.FindIndex` | lib/data-utils.ts:28 | the first index whose key matches, or -1 when none does |
| `Seqs.Find` | lib/data-utils.ts:18 | found iff some element has the key; the result is the first such element |
| `Seqs.Upsert` | lib/data-utils.ts:27-33 | an existing key: same length, the first match replaced, every other position unchanged; a new key: appended, length +1, old prefix unchanged |
| `Seqs.UpsertThenFind` | lib/data-utils.ts:25-35 | after the upsert, the lookup by the element's key returns it, at its old index or at the end |
| `Seqs.UpsertKeepsOtherKeys` | lib/data-utils.ts:25-35 | lookups of any other key are unaffected by an upsert |
| `Seqs.UpsertIdempotent` | lib/data-utils.ts:25-35 | saving the same record twice equals saving it once |
| `Seqs.FindAppendFound` | lib/data-utils.ts:21-33 | appending an element does not change the first match of a key already present |
| `Seqs.FindAppendOther` | lib/data-utils.ts:28-33 | appending an element with another key leaves that key's first match where it was |
| `Seqs.Filter` | lib/data-utils.ts:45-47 | filtering never lengthens |
| `Seqs.FilterMembers` | lib/data-utils.ts:45-47 | an element is kept iff it is in the input and passes the predicate |
| `Seqs.FilterMultiplicity` | lib/data-utils.ts:45-47 | every element that passes is kept as many times as it occurs, and none that fails |
| `Seqs.FilterLengthIsCount` | components/company-dashboard.tsx:100 | the length of a filtered list is the number of positions whose element passes |
| `Seqs.FilterIsSubsequence` | lib/data-utils.ts:45-47 | the kept elements are a subsequence in the original order |
| `Seqs.FilterAppend` | components/client-dashboard.tsx:29-32 | filtering distributes over concatenation |
| `Seqs.FilterFilter` | components/reports-dashboard.tsx:59-65 | filtering twice is filtering once by both predicates |
| `Seqs.FilterOutUniqueKey` | components/company-dashboard.tsx:41 | removing a present key from a list with unique keys removes exactly one element |
| `Seqs.FilterUpdateRejected` | components/company-dashboard.tsx:30-41 | replacing an element by one the filter rejects filters to the old result minus that key |
| `Seqs.FilterDisjointCount` | components/client-dashboard.tsx:75-93 | two exclusive filters select at most the whole list between them |
| `Seqs.SumOf` | lib/data-utils.ts:77 | 0 for the empty list; non-negative when every weight is |
| `Seqs.SumOfPartition` | lib/data-utils.ts:76-85 | the sum over the kept part plus the sum over the rest is the sum over all |
| `Seqs.SumOfFilterBounded` | lib/data-utils.ts:76-77 | with non-negative weights, the sum over a filtered part lies between 0 and the total |
| `Seqs.SumOfAtLeast` | components/company-dashboard.tsx:118 | a lower bound `b` on every weight makes the sum at least `b` times the length |
| `Seqs.SumOfOnes` | components/reports-dashboard.tsx:105-111 | counting with weight 1 gives the length |
| `Seqs.ReplaceWhere` | components/company-dashboard.tsx:55 | same length; each position holds the replacement where the id matches and its old value elsewhere |
| `Seqs.ReplaceWhereIsUpsert` | components/company-dashboard.tsx:53-55 | with unique ids, replacing every match is the same as the store's upsert at the first match |
| `Seqs.Take` | components/reports-dashboard.tsx:141 | the first `n` elements, or all of them when there are fewer |
| `Grouping.Accumulate` | lib/data-utils.ts:81 | adding `v` under key `k`: distinct keys kept, the sum grows by `v`, only `k`'s value changes, the key set gains `k`; an existing key keeps its place and every key its position, a new key is appended last |
| `Grouping.AccumulateExisting` | lib/data-utils.ts:81 | a key already present: updating its first entry in place adds `v` to what the key reads and to the total, and keeps every key at its position |
| `Grouping.AccumulateNew` | lib/data-utils.ts:81 | a key not yet present: appending `(k, v)` makes `k` read `v`, adds `v` to the total and leaves every other key's value |
| `Grouping.GroupSum` | lib/data-utils.ts:79-85 | distinct keys; the values sum to the total weight; the keys are exactly the keys present, in the order the input first meets them |
| `Grouping.GroupSumStep` | lib/data-utils.ts:79-85 | folding the last element into the groups of the prefix gives the groups of the whole: distinct keys, the total weight, the keys present, first-seen order |
| `Grouping.LookupMeaning` | lib/data-utils.ts:81 | the value read as `acc[k]`, defaulting to 0: 0 for an absent key; otherwise an entry of the record, and with distinct keys the value of `k`'s entry |
| `Grouping.FirstSeenOrderStep` | lib/data-utils.ts:79-85 | one step of the fold keeps the keys in first-seen order |
| `Grouping.FilterKeepsFirstSeenOrder` | components/reports-dashboard.tsx:139-141 | dropping entries keeps the remaining keys in first-seen order |
| `Grouping.GroupSumLookup` | lib/data-utils.ts:79-85 | each key's value is the weight summed over exactly the elements with that key, and 0 for an absent key |
| `Ranking.InsertDesc` | components/reports-dashboard.tsx:140 | inserting adds exactly the one entry |
| `Ranking.InsertDescSorted` | components/reports-dashboard.tsx:140 | inserting into a non-increasing list keeps it non-increasing |
| `Ranking.InsertDescStable` | components/reports-dashboard.tsx:140 | inserting into a non-increasing list puts the entry after every entry of equal value |
| `Ranking.SortDesc` | components/reports-dashboard.tsx:140 | a permutation of the entries, in non-increasing order of value |
| `Ranking.SortDescStable` | components/reports-dashboard.tsx:140 | stability: entries with equal values keep their relative order |
| `Text.BeforeFirst` | components/client-dashboard.tsx:105 | a prefix without the separator that is either the whole text or stops at the first separator |
| `Text.Truncate` | components/reports-dashboard.tsx:143 | unchanged up to the limit; otherwise the first `n` characters and "..." |
| `Text.UpperAscii` | components/reports-dashboard.tsx:129 | lower-case ASCII letters map to upper case; everything else is unchanged |
| `Text.Capitalize` | components/reports-dashboard.tsx:129 | same length, first character upper-cased, the rest unchanged |
| `Rounding.RoundRatio` | components/reports-dashboard.tsx:117 | the nearest integer to the ratio, halves up |
| `Rounding.Percent` | components/reports-dashboard.tsx:122-123 | 0 for an empty total; otherwise the rounded percentage, within 0..100 for a part ≤ total, 100 when all are counted |
| `Rounding.PercentBounds` | components/reports-dashboard.tsx:122-123 | the bounds of a rounded percentage |
| `Rounding.Average` | components/reports-dashboard.tsx:117 | 0 for no items; otherwise the rounded mean, non-negative for a non-negative sum |
| `Completion.CompletedCount` | components/company-dashboard.tsx:100 | the number of positions holding a `completada` collection; at most the length; the length when all are completed; 0 when none is |
| `Completion.StatusCount` | components/client-dashboard.tsx:93 | filtering by a status keeps as many collections as there are positions in that status |
| `Completion.CompletionRate` | components/company-dashboard.tsx:101 | within 0..100; 0 for an empty list and when nothing is completed; 100 when everything is; otherwise the half-up rounded percentage |
| `Completion.TotalQuantity` | components/company-dashboard.tsx:118 | 0 for no collections; non-negative for non-negative quantities; at least one kilogram per collection when each has at least one |
| `Completion.TotalCoversCompleted` | components/company-dashboard.tsx:118 | the quantity of all collections is that of the completed ones plus that of the rest; with non-negative quantities the completed part is bounded by it |
| `CollectionForm.NotesOf` | components/collection-form.tsx:45 | empty notes become absent; other notes are kept verbatim |
| `CollectionForm.NewCollection` | components/collection-form.tsx:36-47 | the given id, client and creation time; status `programada`; no company and no completion time; quantity ≥ 1; well formed; the form's fields round-trip through the record |
| `CollectionForm.HandleSubmit` | components/collection-form.tsx:32-52 | the record saved through the store's upsert is the one returned to `onSubmit`; under a fresh id it is appended to the stored collections |
| `CompanyDashboard.IsAvailable` | components/company-dashboard.tsx:30 | no company (or the empty id) and `programada`; a well-formed available collection has no completion time |
| `CompanyDashboard.Available` | components/company-dashboard.tsx:29-31 | exactly the collections with no company that are `programada`, each as many times as it is stored, in stored order |
| `CompanyDashboard.Accept` | components/company-dashboard.tsx:37 | only `companyId` changes, to the company; well-formedness kept; no longer available |
| `CompanyDashboard.Complete` | components/company-dashboard.tsx:48-52 | only status and completion time change, to `completada` and now; the result is well formed, no longer offered for completion, and not available |
| `CompanyDashboard.CompleteOffered` | components/company-dashboard.tsx:266 | offered exactly for `programada` collections, accepted or not, so never for a completed one (nor, well formed, for one with a completion time); every available collection is offered |
| `CompanyDashboard.Dashboard.constructor` | components/company-dashboard.tsx:23-32 | the assigned list is the company's collections; the available list is the available stored ones |
| `CompanyDashboard.Dashboard.AcceptCollection` | components/company-dashboard.tsx:34-43 | an id not available changes nothing; otherwise the accepted record is saved, appended to the assigned list and removed from the available list (+1 and −1 with unique ids), and the available list stays what a reload would show |
| `CompanyDashboard.Dashboard.CompleteCollection` | components/company-dashboard.tsx:45-57 | an id not assigned changes nothing; otherwise the completed record is saved and replaces its entries in place, with the length unchanged, as an upsert when ids are unique |
| `CompanyDashboard.Dashboard.Stats` | components/company-dashboard.tsx:89-123 | counts of assigned and available collections; completed is the number of `completada` assigned ones; the rate is the completion rate, the half-up rounding of 100 · completed / assigned, 0 when nothing is assigned; the quantity sums all assigned collections |
| `CompanyDashboard.AcceptMatchesReload` | components/company-dashboard.tsx:30-41 | upserting an accepted collection into a store with unique ids leaves as available exactly the old available list without that id |
| `CompanyDashboard.LifecycleWellFormed` | components/company-dashboard.tsx:34-57 | a new collection is available and offered for completion; once accepted it is not available; once completed it is well formed, keeps its company and is no longer offered |
| `ClientDashboard.Dashboard.constructor` | components/client-dashboard.tsx:24-27 | the list is the user's collections; the form is closed |
| `ClientDashboard.FirstName` | components/client-dashboard.tsx:105 | the name up to its first space, or all of it when it has none |
| `ClientDashboard.Dashboard.OpenForm` | components/client-dashboard.tsx:108 | the form opens; the list is unchanged |
| `ClientDashboard.Dashboard.CancelForm` | components/client-dashboard.tsx:205 | the form closes; the list is unchanged |
| `ClientDashboard.Dashboard.HandleNewCollection` | components/client-dashboard.tsx:29-32 | the collection is appended (length +1, prefix unchanged) and the form closes |
| `ClientDashboard.Dashboard.SubmitForm` | components/client-dashboard.tsx:205 | the form's record is saved and appended; under a fresh id the list stays what a reload would show |
| `ClientDashboard.AppendOwnStaysInSync` | lib/data-utils.ts:44-48 | a collection whose client is the user, appended to the store, is appended to the user's filtered list as well |
| `ClientDashboard.Dashboard.Stats` | components/client-dashboard.tsx:64-98 | completed and upcoming are the numbers of `completada` and `programada` collections, together at most the total; the rate is the half-up rounding of 100 · completed / total, 0 for no collections; the quantity sums all collections |
| `AdminDashboard.Stats` | components/admin-dashboard.tsx:72-106 | completed is the number of `completada` collections; the rate is the half-up rounding of 100 · completed / total, 0 with no collections; clients and companies are the numbers of users with those roles, together at most the users; the quantity sums all collections |
| `AdminDashboard.RoleCount` | components/admin-dashboard.tsx:95 | filtering by a role keeps as many users as there are positions holding that role |
| `AdminDashboard.ClientOf` | components/admin-dashboard.tsx:131 | the first user with the client's id, or none when no user has it |
| `AdminDashboard.CompanyOf` | components/admin-dashboard.tsx:132 | none for a collection without a company; otherwise the first user with the company id, if any |
| `AdminDashboard.ClientLabel` | components/admin-dashboard.tsx:168 | the client's name, or "No asignado" when the client is missing or the name is empty; never empty |
| `AdminDashboard.CompanyLabel` | components/admin-dashboard.tsx:176 | the company name when set and non-empty, otherwise the user's name |
| `AdminDashboard.CompanyLine` | components/admin-dashboard.tsx:174-178 | shown exactly when the company is found, with its label |
| `ReportsDashboard.ByDateKeeps` | components/reports-dashboard.tsx:40-60 | the date filter keeps exactly the collections scheduled from the threshold on, each as many times as it occurs, in order |
| `ReportsDashboard.FilteredCollections` | components/reports-dashboard.tsx:36-68 | both filters "all": the input; otherwise exactly the collections passing the chosen filters, each as many times as it occurs, as an order-preserving subsequence |
| `ReportsDashboard.FilteredSubsequence` | components/reports-dashboard.tsx:59-65 | the two filters in sequence keep a subsequence |
| `ReportsDashboard.LocationKey` | components/reports-dashboard.tsx:97 | the address up to its first comma, or all of it; never contains a comma |
| `ReportsDashboard.Stats` | components/reports-dashboard.tsx:71-125 | total and completed are the numbers of collections and of `completada` ones; the quantity sums completed ones only; the average is the rounded mean over completed ones; the rate is the completion rate; the four groupings are the group-by sums of the filtered list by type, month, location and status |
| `ReportsDashboard.StatsGroups` | components/reports-dashboard.tsx:76-111 | the four groupings have distinct keys in first-seen order; type, month and location sums equal the quantity of the whole filtered list; status counts sum to the total; no location key contains a comma |
| `ReportsDashboard.LocationKeysHaveNoComma` | components/reports-dashboard.tsx:95-102 | no location group key contains a comma |
| `ReportsDashboard.StatsLookups` | components/reports-dashboard.tsx:76-111 | each type's, month's and location's entry is the quantity of exactly its collections; each status's entry is the number of collections in it |
| `ReportsDashboard.TopLocations` | components/reports-dashboard.tsx:139-141 | at most ten entries of the input in non-increasing order; every location larger than the smallest kept one is kept |
| `ReportsDashboard.PrefixOfSorted` | components/reports-dashboard.tsx:140-141 | a prefix of a sorted list is sorted and holds every entry above its last one |
| `ReportsDashboard.TopLocationsTies` | components/reports-dashboard.tsx:139-141 | among kept locations of equal total, those first met earlier in the filtered list come first, and they are the first such locations of the grouping |
| `ReportsDashboard.LocationChartData` | components/reports-dashboard.tsx:139-145 | one point per top location (at most ten) in non-increasing order; labels up to 15 characters kept, longer ones cut to 15 plus "..." |
| `ReportsDashboard.TypeChartData` | components/reports-dashboard.tsx:128-132 | one point per type group with its quantity, labelled with the capitalised type key; distinct types get distinct labels |
| `ReportsDashboard.StatusChartData` | components/reports-dashboard.tsx:147-151 | one point per status group with its count, labelled with the capitalised status key; distinct statuses get distinct labels |
| `ReportsDashboard.ChartLabelsDistinct` | components/reports-dashboard.tsx:128-151 | capitalising the stored keys of distinct types, or of distinct statuses, gives distinct labels |

## Left out

- Browser storage and JSON. The storage is an optional sequence per key plus an optional session id. `localStorage`, `JSON.stringify` and `JSON.parse` are not modelled. Nor is the loss of `Date` objects in a JSON round trip; with it, `toISOString()` in `generateCollectionStats` fails on stored data.
- The clock. `Date.now()` ids and `new Date()` timestamps are parameters (`id`, `now`). The reports date window is a given threshold `since`; the calendar arithmetic that computes it from "week", "month", "quarter" or "year" is not modelled. Nor is the form's minimum date of tomorrow.
- Locale formatting. The month label (`toISOString().slice(0, 7)` in the store, `toLocaleDateString` in the reports) is a parameter `monthOf`.
- Form parsing. `Number.parseInt` of the quantity text and `new Date` of the date text are not modelled. The form fields arrive parsed, and the input's `min="1"` is a precondition of `NewCollection`.
- Text.UpperAscii: `toUpperCase` is modelled for ASCII letters only. The stored type and status keys are ASCII, so the chart labels are exact.
- Floating point. `Math.round` of a float division is exact integer rounding, halves up. Float artefacts are not modelled.
- `Object.entries` order. Keys that look like array indices are listed first by JavaScript. The association lists keep plain first-insertion order. Type, status and month keys are never index-like, but a location key such as "12" would be.
- Inherited property names as location keys. The location accumulator starts from a plain `{}`, so a key is looked up through `Object.prototype`. For an address whose text before the first comma is `constructor`, `toString` or another inherited method name, `acc[location] || 0` reads a function and the stored value becomes a string. For `__proto__` the assignment goes to the prototype setter and that location's quantity is lost, so `byLocation` no longer sums to the total. The model treats every key as an ordinary own property, so `ReportsDashboard.StatsGroups` and `ReportsDashboard.StatsLookups` hold only for addresses without such names. Type, status and month keys are never such names.
- The month series `monthChartData` copies `byMonth` unchanged and has no model of its own.
- The JSON export (Blob, URLs, the DOM), all JSX, charts, badge colours, the constant trend figures, routing, and the role guards of the pages.
- The authentication context wrapper, which only forwards to the session functions.
- The contents of the seed data, which are arbitrary given sequences.
- Races between browser tabs sharing the store.
- Text.Truncate: lengths count Unicode scalar values, while JavaScript's `length` and `substring` count UTF-16 code units. The two agree for text inside the Basic Multilingual Plane. An address with characters outside it (emoji, for instance) is cut at a different place in the location chart, and the lone surrogate that `substring(0, 15)` can leave behind has no counterpart here.
