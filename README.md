# Sunrise HR portal — a Dafny model

The Sunrise HR portal keeps one table of staff records (name, resumption and exit dates, location,
designation, hiring officer, photo URL) in a hosted database, with each photo held in an object
store bucket called `staff-photos`. This project models the portal's core and proves properties
of it:

- **Storage service** (`services/supabase.js`), module `SupabaseService`. It covers the lazily
  created client and the photo key `<sanitised name>_<timestamp>.<extension>`. It also covers
  the upload (no overwrite), the seven-column insert, the newest-first listing, and a delete
  that parses the photo URL back into bucket and key before removing the row.
- **Excel export** (`services/excelExport.js`), module `ExcelExport`: the nine-column row
  mapping and the single "Staff Records" sheet.
- **HR dashboard** (`hr_dashboard.js`), module `HrDashboard`: the status rule and the table,
  search, add (camera capture or chosen file), edit and mark-as-exited.
- **Public camera form** (`public_form.js`), module `PublicForm`: the add flow that accepts only
  a camera capture. Both browser add flows share the upload-then-insert step in
  `BrowserIntake`.
- **Intake page** (`script.js`), module `IntakeForm`: the field validation, the picture check,
  the "still working" toggle, the form data it sends and how it shows the server's answer.
- **Express server** (`server.js`), module `Server`:
  - which handler a request reaches;
  - the multer upload step (type filter, then the 5 MiB limit, then staging the file);
  - the add-staff route: upload, save, and removal of the staged file on every path;
  - the update stub, the configuration route and the Excel download.
- **`.env` repair script** (`fix-env.js`), module `FixEnv`. It models the three
  regular-expression rewrites as JavaScript resolves them: leftmost match, greedy `.*` that stops
  at a line break, and `replace` of the first occurrence. The file is written only when some
  rewrite fired.
- **How the parts fit** (module `Consistency`):
  - the dashboard and the export disagree on the status of a "Still Working" record;
  - the intake page's picture check agrees with the server's;
  - the intake page posts to a path no route serves;
  - a photo stored by an add is the object a later delete removes.

The hosted database and object store are a class `Backend.Remote`. It has the objects, the rows,
the next id and a ghost log of the calls made, in order. Every remote failure, the clock
(`Date.now`), `Math.random`, locale formatting and the list of files the static middleware can
serve are parameters. Shared JavaScript string behaviour is in `Text`: `split`, `join`, `trim`,
`indexOf`, replace-first, `filter(Boolean)` and ASCII lower-casing.

Where the design description and the code disagree, the model follows the code:

- Updating or deleting a missing id is not an error. The `.eq('id', id)` filter simply matches
  nothing.
- The code has two status rules. The dashboard counts "Still Working" as Active; the export
  counts any non-empty exit date as Exited.
- A refused file type is answered 500 by the error handler, not with a 4xx.
- Upload and save failures return the downstream error message itself.
- A zero-byte picture is not refused.

## Model

| member | source | states |
|---|---|---|
| Backend.Remote.Upload | services/supabase.js:38-45 | an upload without upsert fails, leaving the store unchanged, on a fault or when the key already exists; otherwise it stores exactly those bytes under the key; the call is logged and the table is untouched |
| Backend.Remote.Remove | services/supabase.js:134-136 | a removal deletes just that object unless it faults; the table is untouched |
| Backend.Remote.Insert | services/supabase.js:70-86 | an insert appends one record built from the row with the next id and the creation time and returns it, or fails and changes nothing; ids stay distinct |
| Backend.Remote.Update | hr_dashboard.js:342 | `update(patch).eq('id', id)` patches only the matching row and keeps the store valid; with no matching id nothing changes and no error is raised |
| Backend.Remote.Delete | services/supabase.js:151-156 | `delete().eq('id', id)` removes exactly the rows with that id, or fails and changes nothing |
| Backend.Remote.SelectAll | services/supabase.js:101-104 | the listing is every row, ordered by `created_at` descending |
| Backend.SortByCreatedDesc | services/supabase.js:104 | the ordering is sorted newest first and is a permutation of the rows |
| Backend.UpdateRows | hr_dashboard.js:342 | same number of rows, every row other than the target unchanged, the target row becomes the patched row, ids unchanged |
| Backend.DeleteRows | services/supabase.js:151-154 | a row survives exactly when its id differs from the target |
| Backend.DeleteRowsNoMatch | services/supabase.js:151-154 | a delete whose id matches no row leaves the table exactly as it was |
| Backend.ApplyPatch | hr_dashboard.js:342 | each column named in the patch takes the patch's value and each column not named keeps its old value; the id and the creation time never change, and an empty patch changes nothing |
| Backend.DeleteKeepsValid | services/supabase.js:151-154 | deleting keeps the ids distinct and below the next id |
| SupabaseService.Sanitize | services/supabase.js:32 | the sanitised name has as many characters as the name, only [a-z0-9_], letters and digits lower-cased in place and every other character turned into `_` |
| SupabaseService.SanitizeIdempotent | services/supabase.js:32 | sanitising a sanitised name changes nothing |
| SupabaseService.FileExtension | services/supabase.js:31 | `split('.').pop()` is the suffix after the last `.` and contains no `.`; a name without `.` is its own extension |
| SupabaseService.ExtensionAfterLastDot | services/supabase.js:31 | the extension of `head.ext` is `ext` whenever `ext` has no `.` |
| SupabaseService.StorageKeyExtension | services/supabase.js:31-33 | the key keeps the original file's extension |
| SupabaseService.StorageKeyPrefix | services/supabase.js:33 | the key starts with the name token followed by `_` |
| SupabaseService.StorageKeyChars | services/supabase.js:32-33 | with a sanitised token, everything before the extension's `.` is in [a-z0-9_], and the key's length is token + 1 + digits + 1 + extension |
| SupabaseService.UploadKeyShape | services/supabase.js:31-33 | the upload key is the sanitised name, `_`, the timestamp's digits, `.`, the original extension |
| SupabaseService.PathnameOfPublicUrl | services/supabase.js:126 | `new URL(url).pathname` of an origin followed by a `/`-path without `?` or `#` is that path |
| SupabaseService.PublicPathSegments | services/supabase.js:127 | the non-empty segments of a public object path are `storage/v1/object/public`, the bucket, then the object path's own segments |
| SupabaseService.ParsePictureUrl | services/supabase.js:126-133 | a parsed target has a non-empty bucket without `/` and a non-empty path |
| SupabaseService.PictureUrlRoundTrip | services/supabase.js:126-133 | the bucket and path recovered from a public URL are exactly the ones it was built from |
| SupabaseService.RowOf | services/supabase.js:72-82 | the inserted row copies each of the seven fields unchanged |
| SupabaseService.Service.Initialize | services/supabase.js:13-19 | initialisation fails with "Missing Supabase credentials in .env" exactly when the URL or key is missing, and creates the client otherwise |
| SupabaseService.Service.EnsureClient | services/supabase.js:28 | after the lazy check the client exists exactly when the credentials are present |
| SupabaseService.Service.UploadImage | services/supabase.js:27-60 | one upload under the upload key; success returns the key and its public URL and stores the bytes; a fault or an existing key gives "Failed to upload to Supabase: ..." and stores nothing |
| SupabaseService.Service.SaveStaffData | services/supabase.js:66-91 | one insert of the seven columns; success returns the created record, failure "Failed to save to Supabase: ..." with the table unchanged; the id counter advances by one exactly on success |
| SupabaseService.Service.GetAllStaff | services/supabase.js:97-112 | success returns a newest-first permutation of the table; failure "Failed to fetch staff records: ..." |
| SupabaseService.Service.DeleteStaff | services/supabase.js:119-162 | the photo removal is tried only for a truthy URL that parses, and its failure is swallowed; then the row delete; only a delete failure fails the call; no id is consumed |
| ExcelExport.ExportRow | services/excelExport.js:13-23 | nine cells in fixed order, six copied verbatim, Status "Exited" exactly for a truthy exit date, Exit Date that date or "" |
| ExcelExport.GenerateExcel | services/excelExport.js:10-42 | one "Staff Records" sheet with the header (none for an empty list) and one row per record in input order, or the single error "Failed to generate Excel file" |
| ExcelExport.StatusMatchesExitCell | services/excelExport.js:18-19 | in every exported row, Status is "Exited" exactly when the Exit Date cell is non-empty |
| HrDashboard.RenderTable | hr_dashboard.js:149-192 | no rows means the "No staff records found." message; otherwise one row per record in order, Exited exactly by the dashboard rule, exit button exactly on Active rows |
| HrDashboard.HandleSearch | hr_dashboard.js:194-201 | each row is shown exactly when its lower-cased text contains the lower-cased term |
| HrDashboard.EmptyTermShowsAll | hr_dashboard.js:195-199 | an empty search term shows every row |
| HrDashboard.MatchingRowIsShown | hr_dashboard.js:195-199 | a row whose text contains the term exactly as typed is shown, whatever case the search lowers it to |
| HrDashboard.PhotoChoice | hr_dashboard.js:219-229 | a camera capture wins over a chosen file; with neither there is no photo |
| HrDashboard.EditKeyShape | hr_dashboard.js:329 | the edit key starts with `updated_`, then the underscored name, not lower-cased, and keeps the file's extension |
| HrDashboard.EditPatch | hr_dashboard.js:318-338 | the edit always sets name, designation and location, and sets the photo URL exactly when a new photo was uploaded; no other column |
| HrDashboard.EditKeepsOtherColumns | hr_dashboard.js:318-342 | an edit leaves resumption date, exit date, hiring officer, id and creation time as they were |
| HrDashboard.MarkExitedRow | hr_dashboard.js:364 | marking an exit sets only the exit date, and the record shows as Exited unless the date is "Still Working" |
| HrDashboard.Dashboard.CapturePhoto | hr_dashboard.js:97-98 | the captured photo is stored |
| HrDashboard.Dashboard.RetakePhoto | hr_dashboard.js:108-109 | the captured photo is dropped |
| HrDashboard.Dashboard.HandleAddStaff | hr_dashboard.js:204-283 | with no photo nothing is called; otherwise the upload under the add key comes first; a failed upload (a fault or an existing key) gives "Image upload failed: …" and leaves objects, rows and the next id as they were; after a successful upload the insert follows with the public URL, and fails with "Database save failed: …" exactly when the insert fault is set; success appends the row and clears the capture |
| HrDashboard.Dashboard.HandleEditStaff | hr_dashboard.js:310-351 | a new file is uploaded under the edit key before the update, and an upload failure means no update and no reload; the update patches only that id; a successful update is followed by the list reload, which shows the updated rows newest first; failures raise the "Update failed: " alert |
| HrDashboard.Dashboard.OpenExitModal | hr_dashboard.js:354-358 | the record to mark is remembered |
| HrDashboard.Dashboard.UploadEditPhoto | hr_dashboard.js:325-338 | the new photo is uploaded once, under the edit key; on success the update will carry its public URL, on failure the "Update failed: Image upload failed: " alert is raised and no URL is produced |
| HrDashboard.Dashboard.SendUpdate | hr_dashboard.js:341-349 | exactly one update of the given id with the given patch; on success one reload follows and the table shows the updated rows newest first, or the reload's error; on failure there is no reload, the rows and the table are unchanged and the alert is "Update failed: " plus the error |
| HrDashboard.Dashboard.LoadStaffList | hr_dashboard.js:132-147 | one select call that changes nothing in the store; the table then shows the stored rows newest first, rendered by the dashboard rule, or "Error: " plus the fetch's message |
| HrDashboard.Listed | hr_dashboard.js:132-147 | the table after a fetch: the rendered newest-first rows exactly when the fetch succeeds, and otherwise "Error: " plus its message |
| HrDashboard.Dashboard.ConfirmExit | hr_dashboard.js:360-368 | an empty date alerts and calls nothing; otherwise exactly one update, setting only the exit date of the remembered id, followed on success by the list reload |
| BrowserIntake.StoredExitDate | hr_dashboard.js:244-245 | "still working" stores an empty exit date, otherwise the entered one |
| BrowserIntake.PhotoExtension | hr_dashboard.js:232 | the extension of the file's name, or `jpg` when the name is missing or empty |
| BrowserIntake.AddedRow | hr_dashboard.js:248-258 | the inserted row copies the form fields and carries the public URL and the stored exit date |
| BrowserIntake.AddKeyExtension | hr_dashboard.js:232-233 | the browser add key is the service's upload key when the file has a name, and ends in the photo extension (`jpg` without a name) |
| BrowserIntake.CaptureKeyIsJpg | public_form.js:99-103 | a camera capture is always stored under a key ending in `.jpg` |
| BrowserIntake.UploadThenInsert | hr_dashboard.js:235-260 | an upload failure gives "Image upload failed: ..." and no insert; otherwise the insert follows with the public URL, and its failure gives "Database save failed: ..." |
| PublicForm.PublicPage.CapturePhoto | public_form.js:64-65 | the captured photo is stored |
| PublicForm.PublicPage.RetakePhoto | public_form.js:75-76 | the captured photo is dropped |
| PublicForm.PublicPage.HandleAddStaff | public_form.js:82-149 | without a capture nothing is called; otherwise upload as `webcam_capture.jpg`; a failed upload gives "Image upload failed: …" and leaves objects, rows and the next id as they were; after a successful upload the insert follows, failing with "Database save failed: …" exactly when the insert fault is set; success appends the row and clears the capture so the next submission needs a new photo |
| IntakeForm.LexLessIrreflexive | script.js:115-118 | no date is before itself |
| IntakeForm.LexLessAsymmetric | script.js:115-118 | two dates are never each before the other |
| IntakeForm.ExitDateBoundary | script.js:114-123 | an exit on the resumption day is accepted, and any exit date is accepted while "still working" is ticked |
| IntakeForm.ExitBeforeResumptionRejected | script.js:114-123 | an exit date before the resumption date is rejected, while the reverse order is accepted |
| IntakeForm.Outcome | script.js:213-225 | a message is always shown; "Connection Error" exactly when there is no response or its body is not JSON; success exactly for an ok JSON response |
| IntakeForm.IntakePage.ToggleStillWorking | script.js:34-45 | ticking empties and disables the exit date; unticking re-enables it and keeps its value |
| IntakeForm.IntakePage.ChoosePicture | script.js:50-81 | a picture is kept exactly when it is JPG/PNG and at most 5 MiB; otherwise the input is cleared with the type error first, then the size error |
| IntakeForm.IntakePage.RemoveImage | script.js:84-88 | the picture input is cleared and the form no longer validates |
| IntakeForm.IntakePage.TrimmedIsEmpty | script.js:100 | `!value.trim()` holds exactly for blank text |
| IntakeForm.IntakePage.ValidateForm | script.js:93-153 | the form is valid exactly when every rule holds and exactly when no error text is shown; each field shows its own message whenever its rule fails, so the errors are `FieldErrors` of the inputs |
| IntakeForm.IntakePage.BuildFormData | script.js:198-205 | the successive appends produce exactly `FormData` of the inputs: seven entries in order, with trimmed name, designation and officer, the raw dates and location, "Still Working" as the exit date when ticked, and the picture |
| IntakeForm.IntakePage.Submit | script.js:184-229 | an invalid form sends nothing, keeps its inputs and shows exactly the field errors `validateForm` computes, which are not all empty; a valid one POSTs `FormData` of the inputs to the submit URL with no error shown, shows the outcome, and resets the form only on success |
| IntakeForm.IntakePage.ShowOutcome | script.js:213-224 | the message is the outcome of the response, no field error is shown, and only a success resets the inputs and re-enables the exit date |
| Text.TrimProperties | script.js:100 | the trimmed text is empty exactly for blank text, and otherwise starts and ends with a non-space |
| Text.Split | services/supabase.js:127 | `split` yields at least one piece, no piece contains the separator, and text without it is one piece |
| Text.JoinSplit | services/supabase.js:131 | joining the pieces of a split gives back the text |
| Text.NonEmpty | services/supabase.js:127 | `filter(Boolean)` keeps exactly the non-empty pieces |
| Text.FirstIndex | services/supabase.js:128 | `indexOf` finds the first position of the value, and none exactly when it is absent |
| Text.IndexOfFrom | fix-env.js:20 | the first occurrence of a pattern at or after a position |
| Text.DecimalRoundTrip | services/supabase.js:33 | the timestamp's decimal digits read back as the timestamp |
| Server.Dispatch | server.js:22-104 | preflights go to `cors()`, existing files to the static handler for GET/HEAD, then each route exactly for its verb and case-insensitive path; an update route carries the id parsed from the path and a static hit carries the path itself |
| Server.ConfigResponse | server.js:51-56 | 200 with the project URL and the anon key |
| Server.ConfigHidesServiceKey | server.js:51-56 | the configuration never depends on the service key and never carries it |
| Server.UpdateStaffResponse | server.js:95-101 | always 501 with the fixed message |
| Server.MulterError | server.js:36-46 | a part passes exactly when its type is JPG/PNG and it is at most 5 MiB; the type is checked first |
| Server.ExtName | server.js:32 | `path.extname` is empty or starts with the only `.` it contains |
| Server.Staged | server.js:28-34 | the staged file keeps the original name, type and size |
| Server.TempNameKeepsExtension | server.js:31-32 | the staged file's name keeps the original extension |
| Server.SavedData | server.js:70-78 | the save always gets an empty exit date and the upload's public link |
| Server.UploadsDir.Stage | server.js:28-34 | staging adds exactly that file to the uploads directory |
| Server.UploadsDir.Unlink | server.js:83 | unlinking removes exactly that file |
| Server.PostStaff | server.js:59-91 | no file gives 400 "Picture required" with no remote call; a refused part gives 500 with multer's message; otherwise the staged file is removed on every path, the upload precedes the save, failures give 500 with the message, and success gives 200 with the saved record; the id counter advances by one exactly on a 200 |
| Server.UploadThenSave | server.js:66-80 | the photo is uploaded under the add key before the row is saved; a failed upload means no insert, and its message is the error; the saved row carries the photo's public URL and no exit date; the id counter advances by one exactly on success |
| Server.ExportExcel | server.js:104-117 | 200 with the xlsx headers and the workbook of all records newest first exactly when fetch and generation succeed; otherwise 500 "Failed to generate report"; the only remote call is one select, made exactly when credentials are present, and no id is consumed |
| FixEnv.LastMarker | fix-env.js:13 | greedy `.*` backs off to the last marker on the line that is followed by an ID character |
| FixEnv.MatchAt | fix-env.js:13-41 | a match starts with the key, captures a non-empty run of ID characters, and runs to the end of its line |
| FixEnv.FirstMatch | fix-env.js:14 | `match` without `g` finds the leftmost position where the pattern matches |
| FixEnv.MatchTextFirstAt | fix-env.js:20 | the matched line first occurs in the content at the match itself |
| FixEnv.RewriteShape | fix-env.js:16-20 | a rewrite replaces just the matched line with key + ID and keeps everything before and after it |
| FixEnv.RewriteShrinks | fix-env.js:16-21 | every rewrite makes the content strictly shorter |
| FixEnv.UrlRewriteExtractsId | fix-env.js:13-21 | a URL rewrite keeps the whole ID run after the last marker of the leftmost matching line |
| FixEnv.NoMarkerNoUrlRewrite | fix-env.js:13-34 | content without the marker is never changed by that URL rule |
| FixEnv.BareIdsNoDirtyRewrite | fix-env.js:41-54 | Sheet IDs followed only by a line end are never changed by the dirty-ID rule |
| FixEnv.CleanContentUntouched | fix-env.js:10-54 | content with clean IDs and no URLs is left as it is and not rewritten |
| FixEnv.WrittenIffChanged | fix-env.js:56-57 | some rewrite fires exactly when the final content differs from the original |
| FixEnv.FixEnvFile | fix-env.js:6-67 | the three rewrites run in order; the file is written, with their result, exactly when one fired |
| Consistency.StatusRulesDiverge | hr_dashboard.js:157 | the dashboard's and the export's status rules disagree exactly on the "Still Working" exit date |
| Consistency.SentinelRecordShownTwoWays | services/excelExport.js:18-19 | a "Still Working" record is Active with an exit button on the dashboard but "Exited" in the export |
| Consistency.PictureChecksAgree | script.js:55-68 | the intake page keeps a picture exactly when the server's upload step accepts it |
| Consistency.RefusedTypeIsServerError | server.js:120-123 | a refused type is answered 500 with the filter's message |
| Consistency.SeenByPage | script.js:213-215 | the page sees `ok` exactly for a 2xx status, and a non-JSON body exactly when the server did not send JSON |
| Consistency.PostUnrouted | server.js:59 | a POST to a two-segment `/api/...` path other than `/api/staff` reaches no handler |
| Consistency.SubmitPathUnrouted | script.js:208 | the intake page's POST to `/api/submit-staff` reaches no handler, and the 404 page makes it show "Connection Error" |
| Consistency.StorageKeyIsObjectPath | services/supabase.js:33 | a key built from a letters/digits/`_` token and a URL-safe extension is a single URL-safe path segment |
| Consistency.UploadedPhotoIsDeleted | services/supabase.js:126-133 | deleting a record finds the photo its add stored: its URL parses back to the bucket and the upload key |
| Consistency.EditedPhotoIsDeleted | hr_dashboard.js:329 | a photo replaced by an edit is found again the same way |

## Left out

- Camera streams, canvas and blob handling, modals, view switching, image previews and the HTML
  markup of the table. These are browser UI work; the table is modelled as rows with a status
  and an exit-button flag.
- Authentication, sessions, login and logout, the admin page, the realtime subscription and the
  diagnostic and test scripts. They are calls into outside services.
- The internals of the database and storage client, xlsx, multer, Express and `fs`. Storage and
  table calls are operations of `Backend.Remote` whose failures are inputs.
- The public URL layout `<base>/storage/v1/object/public/<bucket>/<key>`. This is the storage
  client's convention, which is not part of this model; the URL is taken to be the project
  URL, an origin, followed by that path.
- The xlsx binary encoding and `toLocaleString`. The workbook is a value and a creation time is
  formatted by a `localize` parameter.
- `new Date` parsing: dates are ISO `YYYY-MM-DD` text compared in text order, and anything else
  compares false, as an invalid date does.
- Console logging, the status-text timers, button disabling, and the debug printing and
  read/write errors of the `.env` script.
- The uploads directory creation at start-up. The directory is a map from path to contents.
- Server.Dispatch: only the paths a handler is named for are modelled. Express's `json` and
  `urlencoded` body parsers are out. Routing is ASCII case-insensitive with one optional trailing
  `/`; percent-decoding is out.
- Server.PostStaff: the body fields are taken to be present. multer's other errors, such as an
  unexpected field name or a file part that is not `staffPicture`, are out.
- Server.ExtName: a name ending in `/` is treated as having an empty last segment. Node instead
  ignores trailing separators.
- Text.Lower: lower-casing is ASCII only. Full Unicode case mapping is out.
- HrDashboard.Dashboard.LoadStaffList: the reload is modelled where an edit or an exit triggers
  it. The reloads on page load, the refresh button, view switching and realtime events are
  separate triggers of the same operation and are not modelled as handlers. The source does not
  await the reload; here it completes before the handler returns.
- SupabaseService.Sanitize: a name is a sequence of code points, so a character outside the
  Basic Multilingual Plane becomes one `_`. The source's regex has no `u` flag and works on
  UTF-16 code units, so there such a character becomes two `_` and the key is longer.
- SupabaseService.ParsePictureUrl: `new URL` is modelled only for `scheme://host/path` URLs.
  Ports, credentials, percent-encoding and dot segments are out, and any other form is treated
  as a URL that fails to parse.
- Backend.Remote.SelectAll: rows with equal creation times may come back in any order consistent
  with the sort.
