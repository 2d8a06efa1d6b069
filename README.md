# CampusConnect core, modelled in Dafny

CampusConnect is a campus app. A mobile and web client (React Native) talks
to a REST server (Express over MongoDB). That server keeps accounts, study
groups with their chat, lost-and-found reports and events. The client also
uploads media to a cloud media host, and it reads and writes live
lost-and-found reports in a realtime database.

This project models three parts:

- the server's request handlers for study groups, accounts, lost-and-found
  and events;
- the client's media uploader and media picker;
- the rules of each client screen: what a screen checks before it sends,
  what it sends, and how it filters, sorts and labels what it shows.

Modules follow the source files:

- `GroupsApi`, `UsersApi`, `LostFoundApi` and `EventsApi` model
  `server/src/index.ts`. Each collection is a class over a map from
  document id to document, and each handler is a method on it.
- `Upload` models `src/lib/upload.ts`.
- `MediaPicker` models `src/lib/mediaPicker.ts`.
- Each `...Screen` module models one file of `src/screens/`.
- `Session` is what the screens read from the authentication context.
- `ApiCommon` holds the reply shape and the ownership rule shared by two
  delete handlers.
- `Text`, `Seqs` and `Wrappers` give JavaScript's string operations and
  truthiness, and a few sequence facts.

Form state that a handler updates, such as a dialog, a composer or the
settings switches, is a class whose methods change its fields. A decision
that only computes is a function. Network answers, upload results, the
clock and the identity provider's sign-in are parameters.

The code behaves as follows in places a reader might not expect, and the
model does the same:

- A chat message is still sent when its attachment upload fails, with an
  empty URL for the attachment (`src/screens/StudyGroupsScreen.tsx:306-330`).
- Group approval checks nobody's role.
- Pending groups can be joined.
- A delete without a requester succeeds.
- An unknown id on join, leave or approve answers `null`, not 404.

## Model

| member | source | states |
|---|---|---|
| GroupsApi.Pull | server/src/index.ts:392-400 | `$pull` removes every copy of the email and keeps every other member, in order |
| GroupsApi.AddToSetSpec | server/src/index.ts:382-390 | joining a non-member appends exactly the email (old members as a prefix, one more element), joining as a member changes nothing, and joining twice is joining once |
| GroupsApi.PullSpec | server/src/index.ts:392-400 | leaving removes the email and no one else, is a no-op for a non-member, and is idempotent |
| GroupsApi.PullAbsent | server/src/index.ts:392-400 | leaving a group one is not in changes nothing |
| GroupsApi.NetEffect | server/src/index.ts:382-400 | after any run of joins and leaves by one account, it is a member exactly when its last request was a join, and others' membership is unchanged |
| GroupsApi.InsertNewest | server/src/index.ts:343 | inserting into a newest-first list keeps it newest first and adds exactly that group |
| GroupsApi.HeadNoOlder | server/src/index.ts:343 | a younger group inserted behind the head leaves the list newest first |
| GroupsApi.NewestFirst | server/src/index.ts:343 | `sort({ createdAt: -1 })` yields a newest-first permutation of its input |
| GroupsApi.GroupStore.constructor | server/src/index.ts:148-170 | the collection starts empty |
| GroupsApi.GroupStore.Get | server/src/index.ts:329-334 | a known id returns its document, an unknown one 404 |
| GroupsApi.GroupStore.List | server/src/index.ts:336-345 | exactly the groups agreeing with every supplied parameter, each once, newest first |
| GroupsApi.GroupStore.Matching | server/src/index.ts:336-343 | `find(query)` returns every group matching the filter document, each once |
| GroupsApi.GroupStore.Create | server/src/index.ts:347-364 | a new document under a fresh id, approved exactly for a teacher, with the creator as sole member and no messages |
| GroupsApi.GroupStore.Approve | server/src/index.ts:366-380 | 'reject' deletes the group and always acknowledges; any other action sets Approved on a known id and answers null for an unknown one |
| GroupsApi.GroupStore.Join | server/src/index.ts:382-390 | `$addToSet` on the members of a known group, whatever its status; null for an unknown id |
| GroupsApi.GroupStore.Leave | server/src/index.ts:392-400 | `$pull` on the members of a known group; null for an unknown id |
| GroupsApi.GroupStore.AppendMessage | server/src/index.ts:402-416 | 400 without a sender or without any content, image or file, before the lookup; otherwise one message appended to a known group |
| GroupsApi.GroupStore.Delete | server/src/index.ts:418-425 | 404 for an unknown id, 403 for a requester other than the creator, else the group is removed |
| UsersApi.SignupRejection | server/src/index.ts:249-252 | the 400 message of signup: missing credentials first, then a missing profile field, and none exactly when all six are present |
| UsersApi.UserStore.constructor | server/src/index.ts:179-188 | no users at first |
| UsersApi.UserStore.Signup | server/src/index.ts:249-258 | 400 on a rejection, 409 for a taken email, else a new user with the hashed password and the profile sent back |
| UsersApi.UserStore.Login | server/src/index.ts:260-268 | 400 without credentials, 401 for an unknown email or a wrong password, else the profile |
| UsersApi.UserStore.GetProfile | server/src/index.ts:271-277 | 400 without an email, 404 for an unknown one, else the profile without its hash |
| UsersApi.UserStore.PatchProfile | server/src/index.ts:279-291 | a field the body leaves out keeps its value, one sent as `null` is cleared, and one sent as a string takes it (the test is `!== undefined`); the email and the hash never change; 400 and 404 as for reading |
| UsersApi.OnlyAbsentKeeps | server/src/index.ts:284-288 | a stored field survives the patch exactly when the body leaves it out, or sends the value it already has (`null` clearing it) |
| UsersApi.ResendKeeps | src/screens/ProfileEditScreen.tsx:86-104 | sending back the stored value in the editor's way (a missing one left out) leaves the field as it was |
| UsersApi.UserStore.ChangePassword | server/src/index.ts:293-308 | 400 for a missing field, 404 for an unknown email, 401 for a wrong current password, else only the hash changes, to the new password's |
| LostFoundApi.WithDefaults | server/src/index.ts:104-116 | the schema defaults: status 'Active' and the current date only when the field is left out, no value when it is sent as `null`, otherwise the value sent; every other field as sent |
| LostFoundApi.ActiveIff | server/src/index.ts:111 | a new report is 'Active' exactly when its body leaves the status out or sends 'Active', and has no status exactly when it sends `null` |
| LostFoundApi.LostFoundStore.constructor | server/src/index.ts:104-116 | no reports at first |
| LostFoundApi.LostFoundStore.Create | server/src/index.ts:210-213 | the report is stored under a fresh id as sent, with the schema defaults for a left-out status or date and `null` kept as no value |
| LostFoundApi.LostFoundStore.Delete | server/src/index.ts:214-223 | 404 for an unknown id, 403 for a reporter other than the recorded one, else removed |
| LostFoundApi.LostFoundStore.Claim | server/src/index.ts:224-231 | a known report gets status 'Claimed' and nothing else changes; null for an unknown id |
| EventsApi.DateLeTotal | server/src/index.ts:432 | the date order compares any two events |
| EventsApi.DateLeTrans | server/src/index.ts:432 | the date order is transitive |
| EventsApi.InsertByDate | server/src/index.ts:432 | inserting into a date-ordered list keeps it ordered and adds exactly that event |
| EventsApi.SortByDate | server/src/index.ts:432 | `sort({ date: 1 })` yields an ascending permutation of its input |
| EventsApi.EventStore.constructor | server/src/index.ts:132-145 | no events at first |
| EventsApi.EventStore.List | server/src/index.ts:427-434 | the school's events (all of them without a school), each once, in ascending date order |
| EventsApi.EventStore.Create | server/src/index.ts:436-451 | exactly the nine body fields are stored under a fresh id |
| Upload.InferredMimeKnown | src/lib/upload.ts:16-32 | an inferred MIME type is one of the five in the table |
| Upload.InferIgnoresQuery | src/lib/upload.ts:27-32 | whatever follows the first '?' does not affect inference |
| Upload.InferLastDot | src/lib/upload.ts:27-32 | the extension after the last '.' is looked up lowercased |
| Upload.InferNoDot | src/lib/upload.ts:27-32 | a path without '.' is looked up whole |
| Upload.InferCaseInsensitive | src/lib/upload.ts:27-32 | inference ignores the URI's letter case |
| Upload.NameParts | src/lib/upload.ts:38-42 | a `<kind>-<digits>.<ext>` name splits back into its parts |
| Upload.GeneratedNameRoundTrip | src/lib/upload.ts:38-42 | a generated file name reads back as its media type and timestamp |
| Upload.GeneratedNamesDistinct | src/lib/upload.ts:38-42 | generated names made at different times differ |
| Upload.ResolutionSpec | src/lib/upload.ts:69-72 | explicit MIME type over the deprecated one over inference; video exactly for a `video` MIME type; the MIME type is never empty; the file name is the caller's, else the deprecated one, else generated |
| Upload.TrimmedTruthy | src/lib/upload.ts:53-55 | an environment variable counts as set exactly when present and not blank |
| Upload.PrepareUpload | src/lib/upload.ts:53-72 | every unset variable is reported, in order, before the URI is checked; otherwise the request carries the resolved file name, MIME type and configuration |
| MediaPicker.NormalizeAsset | src/lib/mediaPicker.ts:45-55 | no media without a URI; otherwise a video only when the picker said so, and a non-empty MIME type and file name |
| MediaPicker.PickMedia | src/lib/mediaPicker.ts:57-71 | nothing when permission is refused, the picker is cancelled or there is no asset; else the first asset normalised |
| MediaPicker.PickedThenUploaded | src/lib/mediaPicker.ts:22-30 | the uploader keeps the picked media's type, MIME type and file name |
| LostFoundScreen.NormalizeEntry | src/screens/LostFoundScreen.tsx:29-34 | the entry's own `id` when it has one, else the key; the media URL falls back to `imageUrl`; media without a type is an image; every other field as stored |
| LostFoundScreen.NormalizeAll | src/screens/LostFoundScreen.tsx:30-35 | one item per snapshot key, in order: identified by its key unless the entry names its own id (so the ids are the keys when no entry does), with the entry's media URL or legacy image URL, the image default for a type, and its other fields |
| LostFoundScreen.UndatedLast | src/screens/LostFoundScreen.tsx:36 | items without a date come after every dated one |
| LostFoundScreen.SortNewestFirst | src/screens/LostFoundScreen.tsx:36 | the in-place sort leaves the array newest first and a permutation of what it was |
| LostFoundScreen.InsertInto | src/screens/LostFoundScreen.tsx:36 | one insertion step extends the sorted prefix and permutes the array |
| LostFoundScreen.ItemsFromSnapshot | src/screens/LostFoundScreen.tsx:28-37 | a missing snapshot gives no items; otherwise the normalised entries, newest first |
| LostFoundScreen.FilterItems | src/screens/LostFoundScreen.tsx:92 | 'All' shows every item; otherwise exactly the items with that status, each with as many copies as in the list, in order |
| LostFoundScreen.Remove | src/screens/LostFoundScreen.tsx:57-69 | sign-in required first; removal exactly for the owner by uid, or by email when no uid is recorded |
| LostFoundScreen.UidDecides | src/screens/LostFoundScreen.tsx:64-65 | a recorded uid overrides a matching email |
| LostFoundScreen.Claim | src/screens/LostFoundScreen.tsx:42-50 | only a signed-in user writes a claim, of status, uid and time |
| LostFoundScreen.ClaimedStaysClaimed | src/screens/LostFoundScreen.tsx:111 | a claimed item no longer offers "Mark Claimed" and appears under 'Claimed' only |
| ReportFoundScreen.Submit | src/screens/ReportFoundScreen.tsx:21-57 | the four refusals in order (uploading, missing text, missing media, signed out), otherwise an active report with the trimmed fields and the reporter's identity |
| ReportFoundScreen.ReporterOwnsReport | src/screens/ReportFoundScreen.tsx:45-57 | a pushed report appears in the list as active, with its media, offering a claim, and its reporter may delete it |
| ReportFoundScreen.PushedEntryListed | src/screens/LostFoundScreen.tsx:29-34 | any entry with the fields a report is pushed with normalises to such an item |
| ReportFoundScreen.MediaField.constructor | src/screens/ReportFoundScreen.tsx:16-18 | no media and no upload at first |
| ReportFoundScreen.MediaField.HandleMediaSelection | src/screens/ReportFoundScreen.tsx:67-85 | the media change only after a successful upload, and the uploading flag ends down |
| StudyGroupsScreen.PollUpdate | src/screens/StudyGroupsScreen.tsx:72-79 | the first result is taken; a later one replaces the shown group only when its messages differ |
| StudyGroupsScreen.PollStable | src/screens/StudyGroupsScreen.tsx:72-79 | polling the same document twice changes nothing more |
| StudyGroupsScreen.FetchGroups | src/screens/StudyGroupsScreen.tsx:86-117 | the list holds exactly the approved groups of the school and the student's own pending requests, each block only when its answer was ok, pending first, each status block newest first, no group twice; a teacher with a school gets the school's pending requests apart, newest first, when that answer was ok |
| StudyGroupsScreen.PendingFirst | src/screens/StudyGroupsScreen.tsx:113 | pending groups followed by approved ones, each block newest first without repeats, put no pending group after an approved one, keep each status newest first and repeat no group |
| StudyGroupsScreen.CreateRequest | src/screens/StudyGroupsScreen.tsx:119-137 | nothing without a name, a subject and a loaded profile; otherwise the profile's designation and school go with it |
| StudyGroupsScreen.RoleDecidesStatus | src/screens/StudyGroupsScreen.tsx:357 | a request is approved at once exactly when the viewer is a teacher |
| StudyGroupsScreen.JoinLeaveOpen | src/screens/StudyGroupsScreen.tsx:350-432 | after joining the group opens; after leaving it opens only while pending |
| StudyGroupsScreen.AvatarRow | src/screens/StudyGroupsScreen.tsx:449-458 | bubbles for the first five members, and a "+k" badge counting the rest when there are more than five |
| StudyGroupsScreen.Chat.constructor | src/screens/StudyGroupsScreen.tsx:38-43 | no open group, no text and no attachment at first |
| StudyGroupsScreen.Chat.PickImage | src/screens/StudyGroupsScreen.tsx:244-247 | a picked image replaces any document; at most one attachment waits |
| StudyGroupsScreen.Chat.PickDocument | src/screens/StudyGroupsScreen.tsx:257-265 | a picked document replaces any image, its type defaulting to PDF |
| StudyGroupsScreen.Chat.ComposeMessage | src/screens/StudyGroupsScreen.tsx:297-331 | nothing without an open group, an email and some content; a failed upload leaves its URL empty and the message is still sent |
| StudyGroupsScreen.Chat.MessageSent | src/screens/StudyGroupsScreen.tsx:334-339 | a successful post shows the returned group and clears the composer |
| NoticesScreen.FilterNotices | src/screens/NoticesScreen.tsx:80-88 | an empty search shows everything; otherwise exactly the notices with a field containing the lowercased search, each with as many copies as in the list, in order |
| NoticesScreen.EmptyHasNoNeedle | src/screens/NoticesScreen.tsx:81 | only the empty search is skipped |
| NoticesScreen.MatchesIff | src/screens/NoticesScreen.tsx:84-86 | a notice matches through its title, content, department or type, never its year |
| NoticesScreen.SearchIgnoresCase | src/screens/NoticesScreen.tsx:82 | the search gives the same list whatever its letter case |
| NoticesScreen.NoticeRequest | src/screens/NoticesScreen.tsx:50-62 | nothing without a title; otherwise the audience as department and the form's fields |
| NoticesScreen.NoticeForm.constructor | src/screens/NoticesScreen.tsx:22-29 | the form opens closed, on the default audience, year and type |
| NoticesScreen.NoticeForm.CreateNotice | src/screens/NoticesScreen.tsx:49-78 | sent exactly with a title; an accepted notice closes and resets the form |
| NoticesScreen.MetaLine | src/screens/NoticesScreen.tsx:142 | the intended line: the present department, type and year, in that order, joined by ' • ', for each combination of present parts |
| NoticesScreen.AsWrittenHasNoBullet | src/screens/NoticesScreen.tsx:142 | with a department and a type, the line as written starts with department, garbled separator and type, and contains no '•' |
| NoticesScreen.MetaLineShowsBullet | src/screens/NoticesScreen.tsx:142 | with a department and a type, the intended line starts with department, ' • ' and type, so it shows a bullet |
| ResourcesScreen.FilterResources | src/screens/ResourcesScreen.tsx:44-52 | an empty search shows everything; otherwise exactly the resources whose title, subject or year contains the search, each with as many copies as in the list, in order |
| ResourcesScreen.MatchesIff | src/screens/ResourcesScreen.tsx:44-52 | matching goes through title, subject or year only |
| ResourcesScreen.SchoolQuery | src/screens/ResourcesScreen.tsx:33 | a school filter is sent exactly when the profile has a school |
| ResourcesScreen.MetaLine | src/screens/ResourcesScreen.tsx:74 | the present subject, year and department, in that order, joined by ' • ', for each combination of present parts; empty exactly when none is present |
| SettingsScreen.PasswordCheck | src/screens/SettingsScreen.tsx:48-59 | empty field first, then differing passwords, then under six characters; none exactly when all pass |
| SettingsScreen.PasswordForm.constructor | src/screens/SettingsScreen.tsx:16-19 | the dialog starts closed and empty |
| SettingsScreen.PasswordForm.ChangePassword | src/screens/SettingsScreen.tsx:47-83 | sent exactly when the checks pass; an accepted change closes and clears the dialog, anything else leaves it |
| SettingsScreen.LoadFlag | src/screens/SettingsScreen.tsx:28-31 | an absent key keeps the current value; only 'true' reads as true |
| SettingsScreen.StoreThenLoad | src/screens/SettingsScreen.tsx:37-45 | a stored switch reads back as stored |
| SettingsScreen.Preferences.constructor | src/screens/SettingsScreen.tsx:12-13 | dark off and notifications on, over the device's storage |
| SettingsScreen.Preferences.LoadPreferences | src/screens/SettingsScreen.tsx:26-35 | each switch takes its stored value, if any |
| SettingsScreen.Preferences.ToggleDark | src/screens/SettingsScreen.tsx:37-40 | sets dark and stores it under its key only |
| SettingsScreen.Preferences.ToggleNotify | src/screens/SettingsScreen.tsx:42-45 | sets notifications and stores them under their key only |
| SettingsScreen.ToggleThenReopen | src/screens/SettingsScreen.tsx:26-45 | reopening the screen shows the switches as they were left |
| UploadResourceScreen.ResourceTitle | src/screens/UploadResourceScreen.tsx:38 | the title, else the URL's last segment, else 'Resource'; never empty |
| UploadResourceScreen.TitleFromFileName | src/screens/UploadResourceScreen.tsx:38 | without a title the resource is named after its file |
| UploadResourceScreen.TitleForDirectory | src/screens/UploadResourceScreen.tsx:38 | a URL ending in '/' gives 'Resource' |
| UploadResourceScreen.SaveResource | src/screens/UploadResourceScreen.tsx:27-44 | refused exactly for a non-teacher; filed under the teacher's school as department and school |
| UploadResourceScreen.PickAndUpload | src/screens/UploadResourceScreen.tsx:58-110 | non-teachers refused; on the web the pasted URL is required; on a device nothing without a picked file, a failed upload reported as such, and a save only after a successful upload, with its URL |
| SignupScreen.OptionLists | src/screens/SignupScreen.tsx:11-18 | the offered choices are distinct and non-empty, and only 'Teacher' gets groups approved at once |
| SignupScreen.SignupCheck | src/screens/SignupScreen.tsx:79-84 | missing credentials first, then missing fields; none exactly when all six are filled |
| SignupScreen.ChecksAgreeWithServer | src/screens/SignupScreen.tsx:79-84 | the form refuses exactly what the signup handler answers 400 to, with the matching reason |
| SignupScreen.SignupForm.constructor | src/screens/SignupScreen.tsx:22-30 | an empty form, not uploading |
| SignupScreen.SignupForm.DoSignup | src/screens/SignupScreen.tsx:78-115 | sent exactly when the checks pass; the photo URL only after a successful upload; the busy flag lowered only on failure |
| ProfileEditScreen.ProfileForm.constructor | src/screens/ProfileEditScreen.tsx:19-23 | an empty form without a photo |
| ProfileEditScreen.ProfileForm.LoadFrom | src/screens/ProfileEditScreen.tsx:26-34 | a loaded profile fills the form, missing fields as '' |
| ProfileEditScreen.ProfileForm.SaveProfile | src/screens/ProfileEditScreen.tsx:79-104 | nothing with an empty field; uploads only a new photo; sends the stored photo unless that upload succeeded |
| ProfileEditScreen.LoadThenSave | src/screens/ProfileEditScreen.tsx:26-104 | saving a just-loaded profile uploads nothing and keeps its photo URL |
| EventsScreen.FetchEvents | src/screens/EventsScreen.tsx:44-58 | nothing without a school or when the answer is not ok; otherwise exactly the school's events, each once, by date |
| EventsScreen.EventForm.ResetForm | src/screens/EventsScreen.tsx:145-153 | empty fields, the date now, no image; the dialog untouched |
| EventsScreen.EventForm.constructor | src/screens/EventsScreen.tsx:25-36 | the form starts reset, its dialog closed |
| EventsScreen.EventRequest | src/screens/EventsScreen.tsx:99-127 | nothing without title, location and timings; otherwise the form's fields, the profile's school and the email, the organizer as the profile's name, else 'Unknown', and the image URL only after a successful upload, '' otherwise |
| EventsScreen.EventForm.CreateEvent | src/screens/EventsScreen.tsx:99-136 | sends the request for the form as it was; an accepted post closes the dialog and resets the form; anything else leaves the form as it was |
| EventsScreen.ResetThenCreate | src/screens/EventsScreen.tsx:99-153 | a reset form cannot create an event |
| LoginScreen.NormalizeEmailStable | src/screens/LoginScreen.tsx:22-31 | a normalised email has no surrounding space or capital, and is empty exactly for a blank input |
| LoginScreen.OnLogin | src/screens/LoginScreen.tsx:22-31 | asks for both fields when either is empty; otherwise the sign-in's answer decides |
| LoginScreen.LoginIgnoresCaseAndSpace | src/screens/LoginScreen.tsx:22-31 | case and surrounding space in the email do not change the outcome |
| Text.MetaLineShape | src/screens/ResourcesScreen.tsx:74 | a joined meta line is empty exactly without a truthy part, and shows the separator exactly between two or more parts |
| Text.CompactThree | src/screens/ResourcesScreen.tsx:74 | `filter(Boolean)` of three parts keeps exactly the present ones, in their order |
| Text.JoinThree | src/screens/ResourcesScreen.tsx:74 | `filter(Boolean).join(sep)` of three parts is the present ones in order with the separator between each two, for every combination |
| Text.DecimalRoundTrip | src/lib/upload.ts:41 | a timestamp written in decimal reads back as the same number |
| Text.IncludesIff | src/screens/NoticesScreen.tsx:86 | `includes` holds exactly when the needle occurs at some position |
| Text.TrimEmptyIffBlank | src/screens/ReportFoundScreen.tsx:27 | a trimmed field is empty exactly when it is blank |

## Left out

- The HTTP, Express and MongoDB plumbing is not modelled: routing, JSON parsing, CORS, the connection and logging. Each handler is a method, and a reply is a value.
- The notices and resources handlers of the server, the health and test routes, and the seed and listing scripts are not part of this model.
- The upload endpoint (`server/src/index.ts:311-326`) is not part of this model: it only forwards to the media host.
- The form-data request and the fetch that `uploadMedia` sends (`src/lib/upload.ts:74-110`) are not part of this model. So are the chat's `uploadFile` and the media host's answer. Every upload result is an input.
- The realtime database, the identity provider and their listeners are inputs. So is the polling timer (`setInterval`).
- bcrypt is an abstract pair of functions, `UsersApi.Hasher`. Only the assumption that a hash verifies the password it was made from is used.
- `Date.now()` and `new Date()` are parameters. A date is the ISO string or the number the model is given.
- The `createdAt` and `updatedAt` timestamps are not modelled, except where a sort reads `createdAt`, which is then a field.
- Malformed ids (Mongo cast errors) and database failures are not modelled. They are the handlers' 500 paths.
- JSON `null` and `undefined` are both `None` everywhere except where the code tells the two apart: the body of the profile patch (`!== undefined`) and the status and date of a new lost-and-found report, whose schema defaults apply only to a left-out field. Both are modelled with `ApiCommon.BodyField`. Elsewhere the handlers and the screens test such fields for truthiness, or store a field that has no default, and a `null` stored there reads back as no value just as a field never set does.
- GroupsApi.GroupStore.Create: an absent name, subject, creator email, designation or school is stored as '', and an absent creator email becomes a member ''. The handler stores no value there instead.
- GroupsApi.GroupStore.Join: an absent email is added to the members as ''. The handler's update carries no value instead.
- GroupsApi.GroupStore.AppendMessage: an absent content, image URL, file URL, file name or file type is stored in the message as ''. The handler stores no value there instead.
- LostFoundApi.LostFoundStore.Create: an absent or `null` title, description, location, contact, image URL or reporter email is stored as ''. The handler stores no value there instead. The status and date are modelled in full, with `null` kept apart from a left-out field.
- `toLowerCase` is ASCII only. Non-ASCII letters are left as they are.
- `encodeURIComponent` on query parameters is not modelled. A parameter reaches the handler as typed.
- Alerts, navigation, styles, layout and loading spinners are not modelled. Alerts are outcome values or message constants.
- The avatar bubble's letter (`charAt(0).toUpperCase()`) is not modelled.
- Keys such as `constructor` looked up in the extension table through the object prototype are not modelled. The table has exactly its five keys.
- The `tags` and `popularity` fields of resources, and `App.tsx`, are not part of this model.
- GroupsApi.NewestFirst: groups with equal `createdAt` come out in an unspecified order. The database gives no order for ties.
- EventsApi.SortByDate: events with equal dates come out in an unspecified order, for the same reason.
- LostFoundScreen.SortNewestFirst: compares dates by code point, not by `localeCompare`'s locale collation. The two agree on ISO date strings.
- LostFoundScreen.ItemsFromSnapshot: promises the items as a set with their multiplicities, not the exact order JavaScript's stable sort gives to equal dates.
- StudyGroupsScreen.FetchGroups: the two requests are calls on one store state. Changes made between them are not modelled.

## Findings

| source | as written | input that shows it | evidently intended | confidence | as-written member | corrected member |
|---|---|---|---|---|---|---|
| src/screens/NoticesScreen.tsx:142 | The meta line is joined with the bytes of ' • ' misread as Windows-1252, so it contains 'â€¢' and no bullet. The same misreading garbles the dropdown arrow at line 98, the card icon at line 136 and the bullet at `src/screens/SettingsScreen.tsx:101`, so the whole of both files was decoded wrongly; `src/screens/ResourcesScreen.tsx:74` and `src/screens/StudyGroupsScreen.tsx:370` have a real '•' | department "CSE", type "Exam": the line reads "CSE â€¢ Exam" | department, type and year separated by ' • ', as the resources screen does | not executed | NoticesScreen.AsWrittenHasNoBullet | NoticesScreen.MetaLineShowsBullet |
