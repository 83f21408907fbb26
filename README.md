# School website back end and page helpers, in Dafny

This project models the core of a small school website. The model has four parts.

- **The in-memory content store** (`MemStorage`). It keeps six tables: faculty,
  events, programs, gallery images, contacts and announcements. It is seeded with
  six programs, three faculty members and three events.
- **The JSON API over the store.** Each handler picks a status and a body from
  three things: the operation, whether the body passes the insert schema, and
  what the store returned.
- **The record shapes and their insert schemas.** The schemas reject a body that
  lacks a required field. A nullable field may be null or omitted. A field with a
  default may be omitted, and unknown keys are dropped.
- **The small pure helpers** of the pages and the bundled server:
  - the filter bars and filtered lists of the events, faculty and gallery pages;
  - the avatar initials;
  - the base-path handling of the router hook;
  - the request log line and the listen port of the bundled server.

The files:

- `wrappers.dfy`, `sequences.dfy` and `json.dfy` hold the shared building blocks:
  `Option`, duplicate-free sequences, and the parsed JSON value that a request
  body or `res.json` carries.
- `tables.dfy` models a JavaScript `Map<string, R>` as a value. It holds the
  entries and the keys in insertion order, which is the order `map.values()`
  lists them in.
- `schema.dfy` holds:
  - the column definitions;
  - the rule the insert schemas derive from them (`Conforms`);
  - one record and insert datatype per table;
  - one parser per insert schema, proved equivalent to `Conforms`.
- `storage.dfy` holds the class `MemStorage`:
  - six table fields that its methods update in place;
  - a ghost set of the ids issued so far;
  - the seeding, and the date sort of `getEvents`.
- `routes.dfy` holds:
  - the router;
  - the status decisions;
  - `TableApi`/`Api`, which say what one request does to a table and to the store;
  - the `Handle…` methods, which do the same through `MemStorage` and are proved
    to agree with `Api`.
- `filters.dfy`, `events_page.dfy`, `faculty_page.dfy` and `gallery_page.dfy`
  hold the filter bars, the filtered lists and the initials.
- `base_location.dfy` holds `stripBase` and the prefixing setter.
- `server_log.dfy` holds the log line, its 80-character cut, and `parseInt` for
  the `PORT` default.

The inputs from outside the program are parameters of the model:

- An id from `randomUUID` is an argument of each create. It must be fresh, unlike
  every id issued before.
- The clock is the `now` argument of `CreateContact`.
- The date parse `new Date(date).getTime()` is the `dateValue` argument of the
  event sort.
- The request duration is the `durationMs` argument of the log line.
- `JSON.stringify` is the `stringify` argument of the log line.
- `import.meta.env.BASE_URL` is the `base` argument.
- `process.env.PORT` is the `env` argument.

## Model

| member | source | states |
|---|---|---|
| Tables.Table.Get | server/storage.ts:170-172 | `map.get` finds a value exactly when the key is present, and it is the stored one |
| Tables.Table.Set | server/storage.ts:174-179 | `map.set` stores the value under the key, every other key keeps its value, and a new key is enumerated last while an existing one keeps its place |
| Tables.Table.Delete | server/storage.ts:189-191 | `map.delete` removes exactly that key, reports whether it was present, and keeps the order of the rest |
| Tables.Table.Values | server/storage.ts:166-168 | `Array.from(map.values())` lists one value per key, in key order |
| Tables.ValuesCount | server/storage.ts:166-168 | the listing has as many entries as the map has keys |
| Tables.ValuesAreRows | server/storage.ts:166-168 | a value is listed exactly when some key maps to it |
| Tables.SetNewAppends | server/storage.ts:174-179 | a create appends its record to the end of the listing |
| Tables.SetExistingInPlace | server/storage.ts:181-187 | an update replaces its record where it stands in the listing |
| Schema.FieldParsersFollowRules | shared/schema.ts:6-65 | per column kind, the field reader accepts exactly what the derived rule (required, nullable, defaulted) allows |
| Schema.FacultyParseMatchesSchema | shared/schema.ts:6-14 | the faculty parser accepts a body exactly when it conforms to the faculty insert shape (all columns but `id`) |
| Schema.ParseInsertFaculty | shared/schema.ts:60 | an accepted body is an object, and the insert's JSON fields all appear in it with the same values |
| Schema.FacultyRequiredKeys | shared/schema.ts:8-12 | name, title, department, email and bio are required |
| Schema.FacultyImageUrlOptional | shared/schema.ts:13 | imageUrl may be omitted or null |
| Schema.FacultyParseRoundTrip | shared/schema.ts:60 | parsing the JSON of an insert gives it back |
| Schema.FacultyParseIgnoresOtherKeys | shared/schema.ts:60 | `id` and any other key outside the shape do not change the parse |
| Schema.EventParseMatchesSchema | shared/schema.ts:16-25 | the event parser accepts exactly the bodies that conform to the event insert shape |
| Schema.ParseInsertEvent | shared/schema.ts:61 | an accepted body is an object, and the insert's JSON fields all appear in it with the same values |
| Schema.EventRequiredKeys | shared/schema.ts:18-23 | title, description, date, time, location and category are required |
| Schema.EventImageUrlOptional | shared/schema.ts:24 | an event's imageUrl may be omitted or null, and the other fields parse the same |
| Schema.EventParseRoundTrip | shared/schema.ts:61 | parsing the JSON of an insert gives it back |
| Schema.EventParseIgnoresOtherKeys | shared/schema.ts:61 | keys outside the shape, `id` among them, do not change the parse |
| Schema.ProgramParseMatchesSchema | shared/schema.ts:27-33 | the program parser accepts exactly the bodies that conform to the program insert shape |
| Schema.ParseInsertProgram | shared/schema.ts:62 | an accepted body is an object, and the insert's JSON fields all appear in it with the same values |
| Schema.ProgramRequiredKeys | shared/schema.ts:29-31 | name, description and icon are required |
| Schema.ProgramFacultyCountDefaulted | shared/schema.ts:32 | facultyCount has a default, so it may be omitted, but it is not nullable |
| Schema.ProgramParseRoundTrip | shared/schema.ts:62 | parsing the JSON of an insert gives it back |
| Schema.ProgramParseIgnoresOtherKeys | shared/schema.ts:62 | keys outside the shape do not change the parse |
| Schema.AnnouncementParseMatchesSchema | shared/schema.ts:35-41 | the announcement parser accepts exactly the bodies that conform to the announcement insert shape |
| Schema.ParseInsertAnnouncement | shared/schema.ts:63 | an accepted body is an object, and the insert's JSON fields all appear in it with the same values |
| Schema.AnnouncementRequiredKeys | shared/schema.ts:37-39 | title, content and date are required |
| Schema.AnnouncementPriorityDefaulted | shared/schema.ts:40 | priority defaults to "normal", so it may be omitted, but it is not nullable |
| Schema.AnnouncementParseRoundTrip | shared/schema.ts:63 | parsing the JSON of an insert gives it back |
| Schema.GalleryImageParseMatchesSchema | shared/schema.ts:43-48 | the gallery parser accepts exactly the bodies that conform to the gallery insert shape |
| Schema.ParseInsertGalleryImage | shared/schema.ts:64 | an accepted body is an object, and the insert's JSON fields all appear in it with the same values |
| Schema.GalleryImageRequiredKeys | shared/schema.ts:45-47 | title, category and imageUrl are required |
| Schema.GalleryImageUrlRequired | shared/schema.ts:47 | unlike faculty and events, a gallery imageUrl may be neither omitted nor null |
| Schema.GalleryImageParseRoundTrip | shared/schema.ts:64 | parsing the JSON of an insert gives it back |
| Schema.GalleryImageParseIgnoresOtherKeys | shared/schema.ts:64 | keys outside the shape do not change the parse |
| Schema.ContactParseMatchesSchema | shared/schema.ts:50-58 | the contact parser accepts exactly the bodies that conform to the contact insert shape (all columns but `id` and `createdAt`) |
| Schema.ParseInsertContact | shared/schema.ts:65 | an accepted body is an object, and the insert's JSON fields all appear in it with the same values |
| Schema.ContactRequiredKeys | shared/schema.ts:52-56 | name, email, inquiryType and message are required |
| Schema.ContactPhoneOptional | shared/schema.ts:54 | phone may be omitted or null |
| Schema.ContactParseRoundTrip | shared/schema.ts:65 | parsing the JSON of an insert gives it back |
| Schema.ContactParseIgnoresOtherKeys | shared/schema.ts:65 | a client cannot set `id` or `createdAt`: the parse drops them |
| Schema.Faculty.ToJson | shared/schema.ts:6-14 | the record's JSON carries its `id`, and without it is the JSON of its insert fields |
| Schema.Event.ToJson | shared/schema.ts:16-25 | the record's JSON carries its `id`, and without it is the JSON of its insert fields |
| Schema.Program.ToJson | shared/schema.ts:27-33 | the record's JSON carries its `id`, and without it is the JSON of its insert fields |
| Schema.GalleryImage.ToJson | shared/schema.ts:43-48 | the record's JSON carries its `id`, and without it is the JSON of its insert fields |
| Schema.Contact.ToJson | shared/schema.ts:50-58 | the record's JSON carries its `id` and `createdAt`, and without them is the JSON of its insert fields |
| Schema.Announcement.ToJson | shared/schema.ts:35-41 | the record's JSON carries its `id`, and without it is the JSON of its insert fields |
| Schema.InsertFaculty.WithId | server/storage.ts:176 | `{ ...insert, id }` carries the new id and exactly the insert's fields |
| Schema.InsertContact.WithId | server/storage.ts:274-278 | a contact carries the new id, the given `createdAt` and exactly the insert's fields |
| Storage.FixtureSizes | server/storage.ts:69-163 | the fixtures are six programs, three faculty members and three events |
| Storage.MemStorage.constructor | server/storage.ts:57-164 | the new store lists the fixture programs, then the faculty, then the events, in fixture order and under successive seed ids, its gallery, contact and announcement tables are empty, and the ids issued are exactly the seed ids |
| Storage.MemStorage.SeedPrograms | server/storage.ts:108 | `forEach` creates each fixture program in order, under the next id |
| Storage.MemStorage.SeedFaculty | server/storage.ts:134 | `forEach` creates each fixture faculty member in order, under the next id |
| Storage.MemStorage.SeedEvents | server/storage.ts:163 | `forEach` creates each fixture event in order, under the next id |
| Storage.SeededProgramsListed | server/storage.ts:108 | after seeding, `getPrograms` lists exactly the fixtures stamped with their ids, in order |
| Storage.SeededFacultyListed | server/storage.ts:134 | after seeding, `getFaculty` lists exactly the fixtures stamped with their ids, in order |
| Storage.SeededEventsListed | server/storage.ts:163 | after seeding, the events table lists exactly the fixtures stamped with their ids, in order |
| Storage.MemStorage.GetFaculty | server/storage.ts:166-168 | returns the faculty table's values in insertion order |
| Storage.MemStorage.GetFacultyById | server/storage.ts:170-172 | returns the record stored under the id, if any |
| Storage.SeededIdsIssued | server/storage.ts:57-164 | three tables filled in turn from consecutive runs of the seed ids hold, together, exactly the seed ids |
| Storage.MemStorage.CreateFaculty | server/storage.ts:174-179 | the id was absent; afterwards the table is the old one plus that id mapped to `{ ...input, id }`, listed last, and the returned record is the stored one |
| Storage.MemStorage.UpdateFaculty | server/storage.ts:181-187 | an absent id returns nothing and changes nothing; a present id gets `{ ...input, id }` in full, with the key set unchanged |
| Storage.MemStorage.DeleteFaculty | server/storage.ts:189-191 | returns true exactly when the id was present; afterwards it is absent and every other entry is unchanged |
| Storage.InsertByDate | server/storage.ts:193-197 | inserting one event adds exactly that event |
| Storage.InsertByDateSorted | server/storage.ts:193-197 | inserting into a date-sorted list keeps it sorted |
| Storage.SortByDate | server/storage.ts:193-197 | the sorted list is ordered by date and is a permutation of the input |
| Storage.InsertByDateStable | server/storage.ts:193-197 | inserting keeps the relative order of the events on each date |
| Storage.SortByDateStable | server/storage.ts:193-197 | the sort is stable: events with the same date keep their listing order |
| Storage.MemStorage.GetEvents | server/storage.ts:193-197 | returns the stored events as a date-ordered permutation of the table's listing |
| Storage.MemStorage.GetEventById | server/storage.ts:199-201 | returns the record stored under the id, if any |
| Storage.MemStorage.CreateEvent | server/storage.ts:203-208 | the id was absent; afterwards the table is the old one plus that id mapped to `{ ...input, id }`, listed last |
| Storage.MemStorage.UpdateEvent | server/storage.ts:210-216 | an absent id changes nothing; a present id is fully replaced by `{ ...input, id }` |
| Storage.MemStorage.DeleteEvent | server/storage.ts:218-220 | returns true exactly when the id was present, and removes only that entry |
| Storage.MemStorage.GetPrograms | server/storage.ts:222-224 | returns the programs table's values in insertion order |
| Storage.MemStorage.GetProgramById | server/storage.ts:226-228 | returns the record stored under the id, if any |
| Storage.MemStorage.CreateProgram | server/storage.ts:230-235 | the id was absent; afterwards the table is the old one plus that id mapped to `{ ...input, id }`, listed last |
| Storage.MemStorage.UpdateProgram | server/storage.ts:237-243 | an absent id changes nothing; a present id is fully replaced by `{ ...input, id }` |
| Storage.MemStorage.DeleteProgram | server/storage.ts:245-247 | returns true exactly when the id was present, and touches no other table |
| Storage.MemStorage.GetGalleryImages | server/storage.ts:249-251 | returns the gallery table's values in insertion order |
| Storage.MemStorage.GetGalleryImageById | server/storage.ts:253-255 | returns the record stored under the id, if any |
| Storage.MemStorage.CreateGalleryImage | server/storage.ts:257-262 | the id was absent; afterwards the table is the old one plus that id mapped to `{ ...input, id }` |
| Storage.MemStorage.DeleteGalleryImage | server/storage.ts:264-266 | returns true exactly when the id was present, and removes only that entry |
| Storage.MemStorage.GetContacts | server/storage.ts:268-270 | returns the contacts table's values in insertion order |
| Storage.MemStorage.CreateContact | server/storage.ts:272-281 | stores `{ ...input, id, createdAt: now }`; the server clock overrides any `createdAt` |
| Storage.MemStorage.GetAnnouncements | server/storage.ts:283-285 | returns the announcements table's values in insertion order |
| Storage.MemStorage.CreateAnnouncement | server/storage.ts:287-292 | the id was absent; afterwards the table is the old one plus that id mapped to `{ ...input, id }` |
| Storage.MemStorage.DeleteAnnouncement | server/storage.ts:294-296 | returns true exactly when the id was present, and removes only that entry |
| Routes.Route | server/routes.ts:13-229 | a request is routed only to a registered route |
| Routes.RouteFindsEndpoint | server/routes.ts:13-229 | every registered route is reached by its own verb and path |
| Routes.RouteOnlyEndpoints | server/routes.ts:13-229 | a routed request has exactly the verb and path of its route, with a non-empty `:id` |
| Routes.UnroutedRequests | server/routes.ts:181-229 | announcements have no route, the gallery has no get-by-id or update, and contacts have no route with an id |
| Routes.InvalidBodyRejected | server/routes.ts:34-55 | a POST or PATCH body that fails the schema is a 400 with the resource's "Invalid … data" text, and the table is unchanged even when the id exists |
| Routes.CreateStores | server/routes.ts:34-42 | a valid POST is a 201 with the created record, stored under the fresh id and listed last |
| Routes.CreateThenFetch | server/routes.ts:22-42 | a record just created is found by GET on its id with a 200 |
| Routes.FetchOutcome | server/routes.ts:22-32 | GET by id is a 200 with the record when present and a 404 with `{ error }` when absent, and changes nothing |
| Routes.UpdateOutcome | server/routes.ts:44-55 | a valid PATCH on an absent id is a 404 and creates nothing; on a present id it is a 200 with the replacement, stored in place |
| Routes.RemoveOutcome | server/routes.ts:57-67 | DELETE is a 204 exactly when the id was present, removes only that record, and is a 404 otherwise |
| Routes.RemoveThenFetch | server/routes.ts:22-67 | after a DELETE, GET and DELETE on the same id are 404s |
| Routes.TableApiOutcomes | server/routes.ts:13-229 | with a store that never throws, every response is 200, 201, 204, 400 or 404, and a 201 comes exactly from a valid POST |
| Routes.TableApiKeepsKeyed | server/routes.ts:34-55 | every operation keeps each record stored under its own id |
| Routes.ListReply | server/routes.ts:13-20 | a listing is a 200 with the array of records exactly when the store returned, and a throw is a 500 with the resource's text |
| Routes.FetchReply | server/routes.ts:22-32 | a get by id is a 200 with the record exactly when one was found; a missing record is a 404 and a throw a 500 |
| Routes.CreateReply | server/routes.ts:34-42 | a create is a 201 with the created record exactly when nothing threw; a failed parse or a store error is a 400 with the "Invalid … data" text |
| Routes.UpdateReply | server/routes.ts:44-55 | an update is a 200 with the record exactly when one was replaced; a missing record is a 404 and a throw a 400 |
| Routes.DeleteReply | server/routes.ts:57-67 | a delete is a 204 with no body exactly when a record was removed; otherwise it is a 404, or a 500 on a throw, each with a body |
| Routes.TableApi | server/routes.ts:13-67 | one request on a table keeps it well-formed, adds no key besides the fresh id, and a list or a get by id leaves it unchanged |
| Routes.Api | server/routes.ts:12-234 | a request keeps the store well-formed; it is left unanswered exactly when no route matches, and then nothing changes |
| Routes.PostProgramCreates | server/routes.ts:146-154 | a valid `POST /api/programs` stores the parsed program under the fresh id and answers 201 with it |
| Routes.PostProgramAfterSeeding | server/routes.ts:146-154 | on a freshly seeded store, a valid program POST answers 201 with the new record, and `getPrograms` then lists the six fixtures, each under its seed id and in fixture order, followed by the new program |
| Routes.ApiFrame | server/routes.ts:12-234 | a request changes at most its resource's table, announcements never change, and an unrouted request changes nothing |
| Routes.ApiKeepsValid | server/routes.ts:12-234 | every request keeps every table well-formed and every record under its own id |
| Routes.HandleFaculty | server/routes.ts:13-67 | the faculty handlers, run against the store, give the table and the response `TableApi` gives |
| Routes.HandleEvents | server/routes.ts:69-123 | the event handlers, run against the store, give the table and the response `TableApi` gives, with listings sorted by date |
| Routes.HandlePrograms | server/routes.ts:125-179 | the program handlers, run against the store, give the table and the response `TableApi` gives |
| Routes.HandleGallery | server/routes.ts:181-210 | the gallery handlers, run against the store, give the table and the response `TableApi` gives |
| Routes.HandleContacts | server/routes.ts:212-229 | the contact handlers, run against the store, give the table and the response `TableApi` gives, stamped with the clock |
| Routes.Handle | server/routes.ts:12-234 | one request against the store leaves the store and gives the response that `Api` gives |
| Filters.FirstIndex | client/src/pages/events.tsx:18-21 | the index of the value's first occurrence |
| Filters.Distinct | client/src/pages/events.tsx:20 | `Array.from(new Set(xs))` is duplicate-free and holds exactly the values of `xs` |
| Filters.DistinctFirstSeen | client/src/pages/events.tsx:20 | those values come in order of first occurrence |
| Filters.FilterBar | client/src/pages/events.tsx:18-21 | "All" first, then the distinct values, in first-seen order |
| Filters.Matching | client/src/pages/events.tsx:26 | `filter` keeps an order-preserving subsequence whose items all have the selected key |
| Filters.MatchingCounts | client/src/pages/events.tsx:26 | every item with the selected key is kept as often as it occurs, and no other item is |
| Filters.MatchingAppend | client/src/pages/events.tsx:26 | filtering distributes over concatenation |
| Filters.NothingMatches | client/src/pages/events.tsx:26 | a selection no item has keeps nothing |
| Filters.Selected | client/src/pages/events.tsx:23-26 | "All" shows the list unchanged, any other selection shows the matching items |
| EventsPage.Categories | client/src/pages/events.tsx:18-21 | "All" first, then each event category once, in first-seen order; every event's category is among them, and nothing else is |
| EventsPage.FilteredEvents | client/src/pages/events.tsx:16-26 | "All" (the initial selection) shows every event in order; any other category shows an order-preserving subsequence of events with that category, never longer than the list |
| EventsPage.FilteredEventsComplete | client/src/pages/events.tsx:26 | under a category, every event of it is shown as often as it occurs, and no other event is |
| EventsPage.UnknownCategoryShowsNothing | client/src/pages/events.tsx:26 | a category no event has shows nothing |
| FacultyPage.Departments | client/src/pages/faculty.tsx:19-22 | "All" first, then each department once, in first-seen order; every member's department is among them, and nothing else is |
| FacultyPage.FilteredFaculty | client/src/pages/faculty.tsx:17-27 | "All" (the initial selection) shows every member in order; any other department shows an order-preserving subsequence of its members |
| FacultyPage.FilteredFacultyComplete | client/src/pages/faculty.tsx:27 | under a department, every member of it is shown as often as they occur, and no one else is |
| FacultyPage.UnknownDepartmentShowsNoOne | client/src/pages/faculty.tsx:27 | a department no member has shows no one |
| FacultyPage.Split | client/src/pages/faculty.tsx:106 | `split(" ")` gives at least one piece, and no piece holds a space |
| FacultyPage.SplitJoinRoundTrip | client/src/pages/faculty.tsx:106 | joining the pieces with spaces gives the name back, and there is one more piece than there are spaces |
| FacultyPage.Initials | client/src/pages/faculty.tsx:105-108 | the initials have at most one character per piece of the name and hold no space |
| FacultyPage.InitialsAreWordStarts | client/src/pages/faculty.tsx:105-108 | `Initials(name)` is the name's non-space characters that open it or follow a space, in order, so empty pieces contribute nothing |
| GalleryPage.Categories | client/src/pages/gallery.tsx:16-19 | "All" first, then each image category once, in first-seen order; every image's category is among them, and nothing else is |
| GalleryPage.FilteredImages | client/src/pages/gallery.tsx:14-24 | "All" (the initial selection) shows every image in order; any other category shows an order-preserving subsequence of images with that category, never longer than the list |
| GalleryPage.FilteredImagesComplete | client/src/pages/gallery.tsx:24 | under a category, every image of it is shown as often as it occurs, and no other image is |
| GalleryPage.UnknownCategoryShowsNothing | client/src/pages/gallery.tsx:24 | a category no image has shows nothing |
| BaseLocation.StripBase | client/src/hooks/use-base-location.ts:5-10 | a path outside the base is unchanged; under the base the result is never empty, the base itself reads as "/", and the base followed by the result is the path |
| BaseLocation.Prefixed | client/src/hooks/use-base-location.ts:17 | the setter's location is the base followed by exactly the target, so its length is the sum of theirs |
| BaseLocation.StripPrefixedRoundTrip | client/src/hooks/use-base-location.ts:5-17 | stripping `base + to` gives `to` back, or "/" for an empty target |
| BaseLocation.PrefixedStripRoundTrip | client/src/hooks/use-base-location.ts:5-17 | a location under the base, other than the base itself, is reached again by prefixing its stripped form |
| BaseLocation.BaseReadsAsRoot | client/src/hooks/use-base-location.ts:7 | the base reads as "/", and navigating there lands on the base followed by "/" |
| ServerLog.NatDigits | dist/index.js:622 | the decimal digits of a number, with no leading zero |
| ServerLog.DigitPrefix | dist/index.js:647 | the longest run of digits at the front of a string |
| ServerLog.NatDigitsValue | dist/index.js:622 | the digits written for a number have that number's value |
| ServerLog.DecimalString | dist/index.js:622 | a template literal writes an integer as an optional minus sign, present exactly for a negative number, then digits |
| ServerLog.ParseInt | dist/index.js:647 | a string without any digit parses to `NaN` |
| ServerLog.ParseIntReadsDecimal | dist/index.js:647 | `parseInt` reads back the decimal form of any integer, and stops at the first non-digit |
| ServerLog.ListenPort | dist/index.js:647 | an unset or empty `PORT` falls back to "5000", which listens on 5000 |
| ServerLog.ListenPortReadsDecimal | dist/index.js:647 | a `PORT` holding the decimal form of an integer listens on that integer |
| ServerLog.Truncate | dist/index.js:626-628 | the result is at most 80 characters; a line of at most 80 is unchanged, and a longer one gives exactly 80: its first 79 characters, then "…" |
| ServerLog.TruncateIdempotent | dist/index.js:626-628 | cutting a line twice cuts it once |
| ServerLog.FullLine | dist/index.js:622-625 | the line starts with `METHOD PATH STATUS in Nms`; it is exactly that when the captured body is missing or falsy, and otherwise continues with ` :: ` and the serialized body |
| JsonValues.Truthy | dist/index.js:623 | a JSON value is falsy exactly when it is null, false, 0 or the empty string |
| ServerLog.LogLine | dist/index.js:619-631 | a line is logged exactly for paths under "/api"; it is the cut full line, at most 80 characters |

## Left out

- I/O and concurrency are not modelled. HTTP, express routing internals, the body parsers, `res` objects, `console.log` and its time stamp, Vite and static serving are left out. Each storage call is one atomic step rather than a Promise.
- Storage.MemStorage.constructor: does not state that the seeded records carry their own ids. It states the tables' contents under the seed ids, from which that follows.
- Storage.MemStorage.Valid: holds the tables well-formed, with keys drawn from the issued ids. That each record is stored under its own id is `Store.Valid`, proved about every request by `Routes.ApiKeepsValid` rather than held by the class.
- Storage.SortByDate: NaN from a malformed date is not modelled. The date's value is an integer-valued parameter, and JavaScript's sort is modelled as a stable insertion sort, since V8's sort is stable.
- Routes.TableApi: the store never throws, so the 500 responses and the 400 for a store failure are stated by the reply functions but are unreachable through `TableApi`.
- Routes.Route: express path matching is reduced to whole segments. Trailing slashes, case-insensitive matching and URL decoding of `:id` are not modelled. A request no handler matches yields `NotRouted`, whatever the rest of the server does with it.
- JSON numbers are integers. The 32-bit range drizzle-zod puts on an `integer` column is not checked. The key order of a serialized object is not modelled, because records are maps.
- Schema: required string fields are not checked for being non-empty. The code calls the derived zod schemas without refinements, so the model accepts empty strings.
- ServerLog.Truncate: the limits 80 and 79 count Unicode characters. JavaScript's `length` and `slice(0, 79)` count UTF-16 code units, so a line with characters outside the Basic Multilingual Plane is cut at a different place, and the cut can split a surrogate pair.
- ServerLog.LogLine: lengths are counted in Unicode characters, not in JavaScript's UTF-16 code units. `JSON.stringify` is a parameter.
- ServerLog.ParseInt: the white space skipped is tab, line feed, vertical tab, form feed, carriage return, space, no-break space and the byte-order mark. The other Unicode space separators and line terminators are not modelled. What listening on a `NaN` port does is left out. JavaScript's `parseInt` returns a double, which matches the model's integer only for magnitudes up to 2^53 − 1. Rounding above that and `Infinity` are not modelled.
- ServerLog.ParseIntReadsDecimal: holds for every integer in the model. In JavaScript it holds only for magnitudes up to 2^53 − 1, because `parseInt` rounds to a double above that.
- ServerLog.ListenPortReadsDecimal: holds for every integer, like `ParseIntReadsDecimal`. In JavaScript it holds only up to 2^53 − 1 in magnitude.
- FacultyPage.Initials: characters here are Unicode scalar values, not UTF-16 code units. For a name starting with a character outside the Basic Multilingual Plane, `n[0]` takes one surrogate: "𝒜b" gives "\uD835" in JavaScript, where the model gives "𝒜".
- The bundled copy of the store and the routes in dist/index.js is not modelled separately, since it is a build of server/storage.ts and server/routes.ts.
