# Event access, booths and leads: a verified model

This project models the logic of a trade-fair web application: the access QR codes visitors and exhibitors are issued and redeem at the door, exhibitor booths and their assignments, the exhibitor CSV import and export, the registration form, the contact and lead lists exhibitors and administrators work with, the real-time notification list and its bell, the dashboards' recent-activity card and reports, the session programme, and the exhibitor management table. The application keeps its data in a hosted relational store. Here each table is a value held by a class: its `rows`, a `seq` that the class's methods reassign. The store's answer to a write is an explicit boolean `fails` parameter. The React components that change state in place are classes with `modifies` clauses. The filters, labels, exports and aggregations are functions, and the properties the application relies on are proved about them as lemmas.

There is one module per source file, plus a few shared modules:

- `Common`: Option, filter and count helpers, and a generic insert log.
- `Text`: JavaScript's trim, lower-casing, `includes`, `split`/`join`, decimal rendering and `padStart`.
- `QrRecords` and `LeadRecords`: the access-code and lead rows and their tables.
- `Sorting`: the stable `sort` with a descending key, and the "first n" slice.
- `TimeAgo`: the relative-time label, which is shared by the bell and the activity card.

## Model

| member | source | states |
|---|---|---|
| QrRecords.LookupByCode | components/qr-scanner.tsx:67-76 | a lookup by code succeeds exactly when one row carries that code, and then returns a row of the table with that code |
| QrRecords.MarkUsed | components/qr-scanner.tsx:85-91 | the redeeming write sets `is_used` and `used_at` on the rows with that id and leaves every other row as it was |
| QrRecords.DeleteById | components/qr-code-list.tsx:54-65 | deleting keeps exactly the rows whose id differs |
| QrRecords.MarkUsedIsMonotone | components/qr-scanner.tsx:85-91 | a redeeming write never clears a used flag and keeps every code where it was |
| QrRecords.MarkUsedKeepsRowInvariant | components/qr-scanner.tsx:85-91 | the write keeps "`used_at` set exactly when used" on every row that had it |
| QrRecords.RowsWithCodeOnlyCodes | components/qr-scanner.tsx:67-71 | which rows carry a code depends on the codes alone, so the write cannot change what a lookup finds |
| QrRecords.RedeemedCodeIsFoundUsed | components/qr-scanner.tsx:78-91 | after its row is redeemed, the same lookup finds that row again, used and stamped with the write time |
| QrRecords.LookupDependsOnlyOnCodes | components/qr-scanner.tsx:67-76 | a failing lookup keeps failing as long as no row changes its code |
| QrRecords.QrTable.MarkUsedById | components/qr-scanner.tsx:85-96 | the table after the update is the marked table when the store accepts, unchanged when it fails |
| QrRecords.QrTable.DeleteRow | components/qr-code-list.tsx:56-60 | the table after the delete is the table without that id when the store accepts, unchanged otherwise |
| QrScanner.Classify | components/qr-scanner.tsx:73-96 | not found exactly when the lookup fails; already used exactly when the row found is used; redeemed exactly when an unused row is found and the write succeeds |
| QrScanner.SecondScanIsRefused | components/qr-scanner.tsx:78-82 | a code just redeemed is refused as already used on the next scan, whatever white space surrounds it |
| QrScanner.Scanner.ProcessQRCode | components/qr-scanner.tsx:59-106 | a call while another is processing changes nothing; otherwise the outcome is `Classify` of the rows read, each outcome sets the error, the shown result and the table as the handler does, and `isProcessing` is false again |
| QrScanner.Scanner.ResetScanner | components/qr-scanner.tsx:143-147 | clears the result, the error and the processing flag |
| QrScannerAdmin.AdminOutcome | components/qr-code-scanner-admin.tsx:88-111 | the toast is "invalid" exactly when the lookup fails, a warning exactly for a used row, success exactly for an unused row whose write succeeds |
| QrScannerAdmin.UntrimmedCodeIsNotFound | components/qr-code-scanner-admin.tsx:88 | the admin lookup does not trim: a padded code is not found when no stored code is padded |
| QrScannerAdmin.AdminScanner.ProcessQRCode | components/qr-code-scanner-admin.tsx:85-116 | a failed lookup leaves the shown code and table alone; otherwise the row as read is shown, and only an unused code is written, on its id |
| QrScannerAdmin.AdminScanner.EditManualInput | components/qr-code-scanner-admin.tsx:256-268 | typing changes only the box's text |
| QrScannerAdmin.AdminScanner.SubmitManual | components/qr-code-scanner-admin.tsx:260-278 | blank text is ignored; otherwise the trimmed text is processed and the box is cleared |
| QrScannerAdmin.AdminScanner.ResetScanner | components/qr-code-scanner-admin.tsx:118-121 | clears the shown code and the error |
| QrGenerator.SingleDraft | components/qr-code-generator.tsx:46-53 | the single record has the chosen type, e-mail, name and code, a company only for exhibitors, and starts unused |
| QrGenerator.NotBlankIffTrimNonEmpty | components/qr-code-generator.tsx:70 | a line is kept exactly when its trimmed form is non-empty |
| QrGenerator.KeptLines | components/qr-code-generator.tsx:70 | the kept lines are exactly the non-blank lines of the box, counted as such |
| QrGenerator.BulkDrafts | components/qr-code-generator.tsx:78-85 | one unused visitor record per kept line, in order, with the trimmed line as e-mail and "Usuario " plus the text before the first `@` as name |
| QrGenerator.BulkEmailsAreTrimmed | components/qr-code-generator.tsx:81 | every bulk e-mail is non-empty with no white space at either end |
| QrGenerator.BulkOfJoinedEmails | components/qr-code-generator.tsx:70-85 | typing trimmed e-mails one per line gives back exactly those e-mails, in order |
| QrGenerator.SingleLineBulk | components/qr-code-generator.tsx:70-85 | a box with one non-blank line gives exactly one record |
| QrGenerator.BulkNameKeepsLeadingSpace | components/qr-code-generator.tsx:81-82 | white space before an address is trimmed from the e-mail but kept inside the generated name |
| QrGenerator.IdPrefix | components/qr-code-generator.tsx:105 | the id prefix is the id's first eight characters, or all of a shorter id |
| QrGenerator.ExhibitorDrafts | components/qr-code-generator.tsx:104-111 | one unused exhibitor record per exhibitor, in order, with its e-mail, company and `QR_EXH_` code |
| QrGenerator.ExhibitorCodesCollideIff | components/qr-code-generator.tsx:105 | two exhibitor codes are equal exactly when the clock reads are equal and the id prefixes agree |
| QrGenerator.BatchCodesCollideIff | components/qr-code-generator.tsx:104-111 | within one millisecond, two codes of a batch coincide exactly when the id prefixes do |
| QrGenerator.BulkBatch | components/qr-code-generator.tsx:70-87 | a bulk run inserts nothing when no line is kept, and otherwise the bulk records |
| QrGenerator.QrGenerator.GenerateSingle | components/qr-code-generator.tsx:38-67 | a missing e-mail or name inserts nothing; otherwise one record is inserted in one call and the form is cleared only on success |
| QrGenerator.QrGenerator.GenerateBulk | components/qr-code-generator.tsx:69-99 | no kept line inserts nothing; otherwise the whole batch is one insert and only the bulk box is cleared, on success |
| QrGenerator.QrGenerator.GenerateExhibitorQRs | components/qr-code-generator.tsx:101-124 | one insert of the exhibitor batch, the form untouched |
| QrList.FilteredCodes | components/qr-code-list.tsx:40-52 | the shown codes are exactly the held codes passing search, type and status tests |
| QrList.NoFilterShowsAll | components/qr-code-list.tsx:40-52 | an empty search with both selectors on "all" shows every code, in order |
| QrList.UsedAndUnusedPartition | components/qr-code-list.tsx:47-49 | every code shown under "all" is shown under exactly one of "used" and "unused" |
| QrList.UsedPlusUnusedCount | components/qr-code-list.tsx:47-52 | the used and unused lists are together exactly as long as the "all" list |
| QrList.ExportCells | components/qr-code-list.tsx:71-80 | eight cells: code, type name, e-mail, name, company or "", "Sí"/"No", use date or "", creation date |
| QrList.ExportLines | components/qr-code-list.tsx:69-83 | a header and one comma-joined line per shown code |
| QrList.ExportCsv | components/qr-code-list.tsx:69-83 | the text begins with the header line, followed by a line break when some code is shown |
| QrList.ExportSplitsBack | components/qr-code-list.tsx:69-83 | without line breaks in cells the text splits back into its lines, and without commas each line into its cells |
| QrList.CommaShiftsColumns | components/qr-code-list.tsx:76-82 | an unescaped comma in a company name adds one field per comma |
| QrList.QrCodeList.DeleteQRCode | components/qr-code-list.tsx:54-65 | the held list drops that id only after the store delete succeeds, otherwise it is unchanged |
| QrList.QrCodeList.ExportQRCodes | components/qr-code-list.tsx:68-83 | the text exported is the export of the filtered codes |
| QrList.DeleteKeepsOthers | components/qr-code-list.tsx:60 | deleting keeps every other code; deleting an absent id changes nothing |
| BoothAssignment.BoothIdListed | components/booth-assignment-manager.tsx:76-77 | the scan of assigned booth ids finds a booth exactly when some assignment row references it |
| BoothAssignment.ExhibitorIdListed | components/booth-assignment-manager.tsx:81-82 | the scan of assigned exhibitor ids finds an exhibitor exactly when some row references it |
| BoothAssignment.AvailableBoothIff | components/booth-assignment-manager.tsx:75-78 | a booth is offered exactly when it is flagged available and no row references it, whatever that row's status |
| BoothAssignment.AvailableBooths | components/booth-assignment-manager.tsx:75-78 | no more booths than given; each offered booth is a given one, flagged available and referenced by no row |
| BoothAssignment.UnassignedExhibitorIff | components/booth-assignment-manager.tsx:80-83 | an exhibitor is offered exactly when no row references it |
| BoothAssignment.UnassignedExhibitors | components/booth-assignment-manager.tsx:80-83 | no more exhibitors than given; each offered exhibitor is a given one that no row references |
| BoothAssignment.AssignedIsNoLongerOffered | components/booth-assignment-manager.tsx:75-83 | once a row references a booth and an exhibitor, neither is offered again |
| BoothAssignment.AssignButtonEnabled | components/booth-assignment-manager.tsx:277 | the button is enabled exactly when no assignment is in progress and some booth and some exhibitor can be assigned |
| BoothAssignment.NextStatusFollowsLadder | components/booth-assignment-manager.tsx:336-371 | each rung but the last offers exactly its successor; "completed" and unknown statuses offer nothing |
| BoothAssignment.NextStatus | components/booth-assignment-manager.tsx:336-371 | a next status is offered exactly for the first five rungs of the ladder, it is a rung other than the first, and "completed" offers none |
| BoothAssignment.Rank | components/booth-assignment-manager.tsx:336-371 | a status's rank is its position on the ladder, or -1 off the ladder |
| BoothAssignment.NextStatusRaisesRank | components/booth-assignment-manager.tsx:336-371 | every offered step moves exactly one rung up |
| BoothAssignment.AssignmentStatusLabel | components/booth-assignment-manager.tsx:305-315 | each of the five first rungs has its own label and no other status shows it; every other status, "completed" or unknown, reads "Completado" |
| BoothAssignment.SetStatus | components/booth-assignment-manager.tsx:128-131 | the status write changes the rows with that id and no others |
| BoothAssignment.OfferedStepKeepsLadder | components/booth-assignment-manager.tsx:336-371 | writing only offered steps keeps every row's status on the ladder, and a row holding the status the button was offered for moves exactly one rung up |
| BoothAssignment.AssignmentTable.UpdateStatus | components/booth-assignment-manager.tsx:126-133 | the table is the written table when the store accepts, unchanged when it fails |
| BoothAssignment.AssignmentManager.CreateAssignment | components/booth-assignment-manager.tsx:85-124 | missing booth, exhibitor, start or end inserts nothing; otherwise one row with status "assigned" is inserted and the form resets (dated today) only on success; start after end is accepted |
| BoothAssignment.AssignmentManager.AdvanceStatus | components/booth-assignment-manager.tsx:336-371 | a status without a button writes nothing; otherwise the button writes exactly its successor |
| VenueLayout.FirstAssignment | components/venue-layout-manager.tsx:81-83 | none exactly when no row references the booth; otherwise the first row that does |
| VenueLayout.BoothStatus | components/venue-layout-manager.tsx:76-79 | an unreferenced booth is "available"; a referenced booth shows the status of the first row that references it |
| VenueLayout.BoothCompany | components/venue-layout-manager.tsx:81-83 | a company line appears exactly when some row references the booth, and it names the company of the first such row |
| VenueLayout.FirstReferenceUnique | components/venue-layout-manager.tsx:77 | only one row is the first to reference a booth |
| VenueLayout.NoCompanyMeansAvailable | components/venue-layout-manager.tsx:219-258 | a card without a company line shows "available" |
| VenueLayout.StatusAndCompanyAgree | components/venue-layout-manager.tsx:219-258 | for the first row referencing a booth, the card shows that row's status and that row's company |
| VenueLayout.EarlierRowDecides | components/venue-layout-manager.tsx:76-79 | a later row for an already referenced booth does not change its status |
| VenueLayout.FirstOfAppend | components/venue-layout-manager.tsx:77 | `find` over a longer list returns the same first match when the prefix already has one |
| VenueLayout.ByArea | components/venue-layout-manager.tsx:119-123 | "all" keeps everything; an area id keeps exactly its items, in order |
| VenueLayout.OccupiedCount | components/venue-layout-manager.tsx:169-188 | an area's occupied count is the number of its booths whose shown status is not "available", so it never exceeds its number of booths |
| VenueLayout.OccupiedIffReferenced | components/venue-layout-manager.tsx:169-170 | when no row carries "available", a booth is occupied exactly when some row references it |
| VenueLayout.VenueStatusLabel | components/venue-layout-manager.tsx:239-249 | each of available, assigned, confirmed, setup and active has its own label, shown for that status alone; every other status, "breakdown" and "completed" included, reads "Completado" |
| VenueLayout.LabelsDisagreeOnBreakdown | components/venue-layout-manager.tsx:239-249 | for every status, the venue view and the assignment manager show different labels exactly for "breakdown" and "available" |
| VenueLayout.StatusColor | components/venue-layout-manager.tsx:85-102 | blue, purple, yellow, orange and grey each exactly for assigned, confirmed, setup, active and completed; green for every other status, "available", "breakdown" and unknown ones included |
| VenuePage.LengthOrZero | app/admin/venue/page.tsx:48-52 | a failed query counts as zero rows, otherwise its row count |
| VenuePage.Stats | app/admin/venue/page.tsx:47-53 | the figures are the row counts, and the available figure is booths minus assignment rows, unclamped |
| VenuePage.AvailableCanBeNegative | app/admin/venue/page.tsx:51 | one booth with two assignment rows shows -1 available |
| VenuePage.AvailableNegativeIff | app/admin/venue/page.tsx:51 | the available figure is negative exactly when there are more assignment rows than booths |
| VenuePage.VenuePageGate | app/admin/venue/page.tsx:19-27 | login exactly without a user; the figures exactly for an admin profile; home otherwise |
| ExhibitorCsv.ImportLines | components/exhibitor-bulk-actions.tsx:26 | the pasted text, trimmed as a whole, split on line breaks: always at least one line |
| ExhibitorCsv.CellsOf | components/exhibitor-bulk-actions.tsx:40 | a line's cells are its comma-separated parts, each trimmed |
| ExhibitorCsv.MissingHeaders | components/exhibitor-bulk-actions.tsx:30-31 | exactly the required names the header row lacks |
| ExhibitorCsv.AssignHeadersKeys | components/exhibitor-bulk-actions.tsx:43-45 | the built object's keys are exactly the header names |
| ExhibitorCsv.AssignHeadersValue | components/exhibitor-bulk-actions.tsx:43-45 | a header's value is the trimmed cell at its last position in the header row, "" past the line's end |
| ExhibitorCsv.ImportedRecords | components/exhibitor-bulk-actions.tsx:38-52 | one record per line after the header line |
| ExhibitorCsv.RecordAt | components/exhibitor-bulk-actions.tsx:39-51 | record `k` is built from line `k + 1` with index `k + 1` |
| ExhibitorCsv.BuildRecord | components/exhibitor-bulk-actions.tsx:40-50 | the `forEach` over headers and the two defaults build the record the specification function describes |
| ExhibitorCsv.BuildRecords | components/exhibitor-bulk-actions.tsx:38-52 | the loop pushes exactly the records of the lines after the header, in order |
| ExhibitorCsv.ImportOutcome | components/exhibitor-bulk-actions.tsx:18-66 | blank text, exactly, is refused as empty; missing required names, exactly, are reported, with exactly those names; an insert failure is reported exactly when the header is complete and the store fails; an import happens exactly when the header is complete and the store accepts, and counts the lines minus one |
| ExhibitorCsv.ImportForcesActive | components/exhibitor-bulk-actions.tsx:48 | every imported record is active, whatever its cell said |
| ExhibitorCsv.RecordKeys | components/exhibitor-bulk-actions.tsx:41-45 | a record holds a cell for exactly the header names |
| ExhibitorCsv.DefaultBoothShape | components/exhibitor-bulk-actions.tsx:49 | an empty or absent booth number becomes `B` and the line index padded to three digits |
| ExhibitorCsv.ExhibitorBulkActions.HandleCSVImport | components/exhibitor-bulk-actions.tsx:18-66 | the result is the import outcome; only an accepted import inserts its records, in one call, and clears the box |
| ExhibitorCsv.ExportCell | components/exhibitor-bulk-actions.tsx:93 | each cell is quoted and holds the value, or nothing when the value is falsy or absent |
| ExhibitorCsv.ExportCells | components/exhibitor-bulk-actions.tsx:75-93 | thirteen cells, in header order |
| ExhibitorCsv.ExportBody | components/exhibitor-bulk-actions.tsx:93 | one line per exhibitor; line k is the comma-join of exhibitor k's thirteen quoted cells |
| ExhibitorCsv.ExportLines | components/exhibitor-bulk-actions.tsx:91-94 | the header names joined by commas, then for each exhibitor k, at line k+1, its quoted cells joined by commas |
| ExhibitorCsv.ExportCsv | components/exhibitor-bulk-actions.tsx:91-94 | the text begins with the header line, followed by a line break when there is an exhibitor |
| ExhibitorCsv.FalsyExportsEmpty | components/exhibitor-bulk-actions.tsx:93 | 0, false, "" and null all export as an empty quoted cell |
| ExhibitorCsv.ZeroPercentageLooksAbsent | components/exhibitor-bulk-actions.tsx:84-93 | a zero benefit percentage exports exactly like a missing one |
| ExhibitorCsv.TemplateHasRequiredNames | components/exhibitor-bulk-actions.tsx:113 | the template's header row lacks none of the required names |
| ExhibitorCsv.TemplatePassesHeaderCheck | components/exhibitor-bulk-actions.tsx:113-115 | the template's header row is its names, and an import of it is accepted |
| ExhibitorCsv.CompanyIsFirstColumn | components/exhibitor-bulk-actions.tsx:75-76 | the company is the first export column and appears once |
| ExhibitorCsv.ExportSplitsIntoLines | components/exhibitor-bulk-actions.tsx:91-94 | exported text of plain values splits back into its lines and its thirteen header names |
| ExhibitorCsv.ImportOfExportKeepsQuotes | components/exhibitor-bulk-actions.tsx:40-48 | importing an export does not give the values back: the company cell keeps its quotes and the record is active |
| ExhibitorCsv.ImportOfExportCounts | components/exhibitor-bulk-actions.tsx:26-58 | the export of one or more exhibitors is accepted whole: one record per exhibitor |
| ExhibitorCsv.AcceptedImport | components/exhibitor-bulk-actions.tsx:18-58 | non-blank text with the required names and a successful insert imports one record per line after the header |
| ExhibitorCsv.ExportHasRequiredNames | components/exhibitor-bulk-actions.tsx:75-89 | the export's header row passes the import's header check |
| Register.AcceptedMatchesPattern | app/auth/register/page.tsx:49-52 | every address the validator's check accepts matches the e-mail pattern |
| Register.PatternIsAccepted | app/auth/register/page.tsx:49-52 | every address the pattern matches is accepted by the check |
| Register.EmailAcceptedIff | app/auth/register/page.tsx:49-52 | the check accepts exactly the texts the pattern matches |
| Register.EmailError | app/auth/register/page.tsx:49-54 | no message exactly for a non-empty address matching the pattern; "requerido" exactly for an empty one; "Ingresa un email válido" exactly for a non-empty one failing the pattern |
| Register.AheadFromIff | app/auth/register/page.tsx:61 | a lookahead at a position succeeds exactly when the class occurs at or after it before any line terminator |
| Register.StrongOnOneLineIff | app/auth/register/page.tsx:61 | on one line, the strength test asks for a lower-case letter, an upper-case letter and a digit, anywhere |
| Register.LinesAreCheckedApart | app/auth/register/page.tsx:61 | the three kinds of character must share one line: "a", a line break, then "A1" is refused |
| Register.PasswordError | app/auth/register/page.tsx:57-63 | empty, then shorter than six, then weak, each exactly when the earlier checks pass, and no message otherwise |
| Register.ConfirmError | app/auth/register/page.tsx:66-70 | no message exactly for a non-empty confirmation equal to the password; a mismatch message exactly for a different non-empty one; "Confirma tu contraseña" exactly for an empty one |
| Register.NameError | app/auth/register/page.tsx:73-77 | no message exactly when the trimmed name has two or more characters; "requerido" exactly for a blank name; the too-short message exactly for a non-blank name whose trim has fewer than two characters |
| Register.PhoneError | app/auth/register/page.tsx:80-82 | no message exactly for an empty phone or one matching the phone pattern; any message is the invalid-phone text |
| Register.PhoneLength | app/auth/register/page.tsx:80 | fewer than ten characters never pass, ten or more digits always do |
| Register.ValidIff | app/auth/register/page.tsx:45-86 | a form has no field message exactly when every field meets its rule |
| Register.Validate | app/auth/register/page.tsx:45-86 | the general message is never set, and each field's slot is empty exactly when that field meets its own rule |
| Register.MessagesAreNonEmpty | app/auth/register/page.tsx:51-81 | every recorded message is non-empty, so it counts as an error key |
| Register.SetFieldOnlyThat | app/auth/register/page.tsx:89 | editing a field changes that field to the value and no other field |
| Register.ClearErrorOnlyThat | app/auth/register/page.tsx:91-93 | clearing a field's message keeps every other message |
| Register.RegisterPage.ValidateForm | app/auth/register/page.tsx:45-86 | the stored errors are the validator's record for the form, and the result is true exactly when it records no message |
| Register.RegisterPage.HandleInputChange | app/auth/register/page.tsx:88-94 | the field is set, and its message is cleared only when one is shown |
| Register.RegisterPage.HandleRegister | app/auth/register/page.tsx:96-105 | sign-up is attempted exactly for a valid form; an invalid form keeps its messages, a valid one has them cleared |
| Contacts.AllContacts | components/contacts-report.tsx:57-91 | the leads, then the profiles, then the attendees, each converted in its own order |
| Contacts.MergedNamesDefault | components/contacts-report.tsx:62-87 | lead and profile contacts always have a name; profiles are "active"; attendees are confirmed or registered and have no phone |
| Contacts.FindEmail | components/contacts-report.tsx:96-105 | the first position holding that e-mail, or none exactly when no position holds it |
| Contacts.UniqueContacts | components/contacts-report.tsx:94-112 | the `reduce` that pushes and overwrites in place builds exactly the deduplicated list the specification function gives |
| Contacts.Unique | components/contacts-report.tsx:94-112 | the deduplicated list is never longer than the merged list, and is empty only when the merged list is |
| Contacts.StepEmails | components/contacts-report.tsx:96-108 | a step keeps every kept e-mail in place and appends the contact's e-mail only when it is new |
| Contacts.UniqueKeepsFirstAppearanceOrder | components/contacts-report.tsx:96-107 | the kept e-mails are the merged e-mails in order of first appearance |
| Contacts.UniqueEmails | components/contacts-report.tsx:94-112 | the kept contacts have pairwise distinct e-mails and every merged e-mail is kept |
| Contacts.UniqueFromMerged | components/contacts-report.tsx:94-112 | every kept contact is one of the merged contacts |
| Contacts.StepReplaceRule | components/contacts-report.tsx:101-107 | the kept contact for an e-mail is replaced exactly when the newcomer is strictly later, or named while the kept one is "Sin nombre" |
| Contacts.UniqueEmailsEqualsTotal | components/contacts-report.tsx:189-195 | the number of distinct kept e-mails always equals the number of kept contacts |
| Contacts.Filtered | components/contacts-report.tsx:114-127 | exactly the kept contacts matching the search on e-mail, name or source and the singular type filter |
| Contacts.EmptySearchKeepsAll | components/contacts-report.tsx:114-127 | an empty search with type "all" shows every kept contact |
| Contacts.PluralExportIsHeaderOnly | components/contacts-report.tsx:129-144 | a per-type export compares a plural word with a singular type, so it holds only the header line |
| Contacts.ContactsCsv | components/contacts-report.tsx:129-144 | the text begins with the header line, followed by a line break when some contact is exported |
| Contacts.AllExportLineCount | components/contacts-report.tsx:129-144 | without line breaks in cells, the "all" export has one line per filtered contact after the header |
| Contacts.TableRows | components/contacts-report.tsx:312 | the table shows a prefix of at most 50 filtered contacts, all of them exactly when there are at most 50 |
| LeadRecords.StoredNotes | components/leads-table.tsx:86 | an empty or missing note is stored as no note; any other note is stored as given |
| LeadRecords.UpdateStatus | components/leads-table.tsx:82-89 | the rows with that id get the new status, the stored note and the new update time; every other row is unchanged |
| LeadRecords.StatusWriteClearsNotes | components/leads-table.tsx:82-89 | a status write without notes leaves the lead with no notes and the new status |
| LeadRecords.StatusBadge | components/leads-table.tsx:130-140 | the three known statuses read in Spanish; any other status is shown as stored |
| LeadRecords.LeadTable.WriteStatus | components/leads-table.tsx:82-91 | a write that the store accepts applies UpdateStatus; a failed one leaves the rows unchanged |
| LeadsTable.Shown | components/leads-table.tsx:49-69 | a lead is shown exactly when it is in the list and passes the search, status and type controls; never more leads than given |
| LeadsTable.NoFilterShowsAll | components/leads-table.tsx:52-67 | with an empty search and both filters on "all", every lead is shown in order |
| LeadsTable.StatusFilterExact | components/leads-table.tsx:61-63 | a status filter shows only leads of that status, and every one that passes the other controls |
| LeadsTable.StatusFilterNarrows | components/leads-table.tsx:61-63 | the list with a status filter is the unfiltered list narrowed by status, order kept |
| LeadsTable.LeadsView.ApplyFilters | components/leads-table.tsx:49-70 | reassigns the working list to Shown for the current controls and leaves the controls alone |
| LeadsTable.LeadsView.UpdateLeadStatus | components/leads-table.tsx:77-101 | the table gets the status write unless the store fails; the success flag is set exactly when it succeeds; the busy flag ends down |
| LeadsTable.ActionStatus | components/leads-table.tsx:298-313 | the dialog buttons write "contacted" or "completed" |
| LeadsTable.DialogUpdateEffect | components/leads-table.tsx:298-313 | a dialog button gives the lead a known status, erases its notes, stamps the update time and keeps its visitor and creation data; others unchanged |
| LeadsTable.ColumnCount | components/leads-table.tsx:206-213 | six columns exactly for administrators, five for everyone else |
| LeadsTable.StatusLabel | components/leads-table.tsx:110 | the export reads "Pendiente" and "Contactado" for those statuses and "Completado" for every other one |
| LeadsTable.DisplayName | components/leads-table.tsx:225 | the visitor name when it is given and non-empty, otherwise "Sin nombre" |
| LeadsTable.TypeLabel | components/leads-table.tsx:109 | "Beneficio" exactly for benefit leads, "Reunión" for every other type |
| LeadsTable.BadgeAndExportLabels | components/leads-table.tsx:130-140 | badge and export agree on the three known statuses and disagree on any other stored status except "Completado" |
| LeadsTable.ExportRow | components/leads-table.tsx:107-117 | nine cells in header order: date, type label, status label, name, e-mail, phone, company, booth, notes, missing values empty |
| LeadsTable.ExportBody | components/leads-table.tsx:106-118 | one comma-joined line per lead on screen, in order |
| LeadsTable.ExportRowSplits | components/leads-table.tsx:104-119 | a lead without commas in its fields splits back into its nine cells |
| LeadsTable.CommaInNotesAddsCell | components/leads-table.tsx:116-117 | the export does not quote, so one comma in the notes makes the line split into ten cells |
| LeadsTable.ExportLineCount | components/leads-table.tsx:104-119 | without line breaks in the fields, the file splits into the header and one line per lead |
| LeadsTable.ExportCsv | components/leads-table.tsx:104-119 | the text begins with the header line, followed by a line break when some lead is shown |
| LeadsTable.HeaderHasNoBreak | components/leads-table.tsx:105 | the header line holds no line break |
| LeadsPage.Visible | app/leads/page.tsx:53-55 | an exhibitor with an exhibitor id reads exactly its own leads; everyone else reads the whole table |
| LeadsPage.LeadsPageGate | app/leads/page.tsx:17-61 | no user goes to login; the page renders exactly for an administrator or an exhibitor with an exhibitor row; leads newest first; a query error shows none |
| LeadsPage.ExhibitorSeesOwnLeads | app/leads/page.tsx:28-55 | an exhibitor sees exactly the leads addressed to its exhibitor row |
| LeadsPage.AdminSeesAll | app/leads/page.tsx:40-65 | an administrator sees every lead as often as it is stored, under "Gestión de Leads" |
| LeadsPage.OthersGoHome | app/leads/page.tsx:24-37 | a user without a profile, with another user type, or an exhibitor without a row is sent home |
| Notifications.LeadNotification | components/notification-provider.tsx:62-82 | the lead's notification has id "lead-" plus the lead id, type lead, is unread and is stamped now |
| Notifications.LeadTitleNamesType | components/notification-provider.tsx:66 | the title names a benefit exactly for benefit leads and a meeting for every other type |
| Notifications.QrNotification | components/notification-provider.tsx:136-150 | a redemption's notification has id "qr-" plus the code id, type system, the access title, is unread and is stamped now |
| Notifications.MarkRead | components/notification-provider.tsx:172 | each notification with that id becomes read; the others stay as they were |
| Notifications.MarkAllRead | components/notification-provider.tsx:177 | every notification becomes read, length kept |
| Notifications.MarkReadOneLess | components/notification-provider.tsx:171-174 | with distinct ids, marking an unread notification leaves one fewer unread |
| Notifications.MarkReadAbsent | components/notification-provider.tsx:171-174 | marking an id that is absent or already read leaves the unread number alone |
| Notifications.MarkAllReadNoneUnread | components/notification-provider.tsx:176-179 | after marking all, nothing is unread |
| Notifications.MarkingReadAgainDrifts | components/notification-provider.tsx:171-174 | marking an already read notification lowers the counter while the list keeps its unread one, so counter and list disagree |
| Notifications.NotificationCenter.constructor | components/notification-provider.tsx:28-29 | a new centre has an empty list and a zero counter |
| Notifications.NotificationCenter.OnLeadInserted | components/notification-provider.tsx:52-117 | with a configured store and a found exhibitor, the lead's notification goes first and the counter rises by one; the e-mail is requested exactly for a meeting with an advisor address; otherwise nothing changes; counter and list stay in step |
| Notifications.NotificationCenter.OnQrUpdated | components/notification-provider.tsx:132-160 | only an update from unused to used adds the access notification first and raises the counter; counter and list stay in step |
| Notifications.NotificationCenter.MarkAsRead | components/notification-provider.tsx:171-174 | the list becomes MarkRead and the counter falls by one, never below zero; they stay in step when an unread notification of a list with distinct ids is marked |
| Notifications.NotificationCenter.MarkAllAsRead | components/notification-provider.tsx:176-179 | every notification becomes read and the counter is zero, in step with the list |
| Notifications.UnconfiguredStaysEmpty | components/notification-provider.tsx:37-40 | without a configured store, a new lead and a redemption leave the list empty and the counter at zero |
| NotificationBell.BadgeText | components/notification-bell.tsx:44-47 | no badge exactly when nothing is unread; "99+" exactly above 99; otherwise the decimal digits of the count |
| NotificationBell.CountTextIsNotCap | components/notification-bell.tsx:46 | no count's digits read "99+" |
| NotificationBell.Listed | components/notification-bell.tsx:70 | the bell lists a prefix of the notifications, at most twenty |
| NotificationBell.FooterIffHidden | components/notification-bell.tsx:112 | the "Ver todas" footer appears exactly when some notification is not listed |
| NotificationBell.ClickTarget | components/notification-bell.tsx:74-98 | a click marks the notification by its id exactly when it is unread |
| NotificationBell.ClickKeepsCount | components/notification-bell.tsx:74-78 | with distinct ids, clicking any listed entry keeps the counter in step with the list |
| NotificationBell.MarkAllClearsBadge | components/notification-bell.tsx:44-59 | after "Marcar todas" the badge and the button are gone and nothing is unread |
| TimeAgo.MinutesBetween | components/notification-bell.tsx:31 | the whole minutes elapsed, rounded down |
| TimeAgo.FormatTimeAgo | components/notification-bell.tsx:28-37 | never empty; "Ahora" under one minute; otherwise the label ends in the largest unit the elapsed minutes reach: m under an hour, h under a day, d beyond |
| TimeAgo.TimeAgoMeaning | components/recent-activity.tsx:62-71 | "Ahora" exactly under one minute; otherwise a count and unit, the count being the elapsed minutes, hours or days rounded down and the unit the largest reached |
| TimeAgo.MinutesGrow | components/notification-bell.tsx:31 | a later reading never shows fewer minutes |
| RecentActivity.SortNewestFirst | components/recent-activity.tsx:25-26 | sorts the array in place into the stable newest-first order |
| RecentActivity.InsertNext | components/recent-activity.tsx:26 | one insertion step: the prefix becomes the element inserted into the sorted prefix, the rest untouched |
| RecentActivity.RecentLeads | components/recent-activity.tsx:25-27 | the array is left sorted newest first and the card holds its first ten leads |
| RecentActivity.RecentIsNewest | components/recent-activity.tsx:25-27 | at most ten leads, all handed in, newest first, none left out newer than the last shown; all of them when there are ten or fewer |
| RecentActivity.Recent | components/recent-activity.tsx:25-27 | at most ten leads, newest first |
| RecentActivity.ActivityName | components/recent-activity.tsx:94 | the visitor name when it is given and non-empty, otherwise "Usuario anónimo" |
| RecentActivity.ActivityVerb | components/recent-activity.tsx:98 | "Solicitó beneficio" exactly for benefit leads, and "Solicitó reunión" exactly for the others |
| Sorting.InsertDescPermutes | components/recent-activity.tsx:26 | insertion adds the element and loses none |
| Sorting.InsertDescOrdered | components/recent-activity.tsx:26 | inserting into a list sorted by key, largest first, keeps it sorted |
| Sorting.InsertDescAt | components/recent-activity.tsx:26 | the element lands after the prefix with keys at least its own and before the smaller suffix |
| Sorting.SortDesc | components/recent-activity.tsx:26 | the sort is as long as its input and ordered by key, largest first |
| Sorting.SortDescPermutes | components/recent-activity.tsx:26 | the sort is a permutation |
| Sorting.SortDescStable | components/recent-activity.tsx:26 | the sort is stable: for every key, the elements with that key come out in the order they went in |
| Sorting.SortDescSameElements | components/recent-activity.tsx:26 | the sort holds exactly the elements it was given |
| Sorting.TopDesc | components/reports-analytics.tsx:95-96 | the slice holds min(n, length) elements, ordered by key, largest first |
| Sorting.TopDescIsLargest | components/reports-analytics.tsx:95-96 | the kept elements are sorted, come from the input, and none left out is larger than the last kept; all are kept when there are at most n |
| Reports.ShortName | components/reports-analytics.tsx:90-91 | names of at most fifteen characters are kept; longer ones become their first fifteen characters followed by "..." |
| Reports.LeadsPerExhibitorRanks | components/reports-analytics.tsx:88-96 | at most ten bars, most leads first; each bar is some exhibitor's, counting that exhibitor's leads; no exhibitor left out has more leads than the last bar shown |
| Reports.LeadsPerExhibitor | components/reports-analytics.tsx:88-96 | at most ten bars, ordered by lead count, largest first |
| Reports.BreakdownTotals | components/reports-analytics.tsx:98-112 | the type and the status slices together count at most every lead; the two code slices count exactly every code |
| Reports.SessionTypeColor | components/reports-analytics.tsx:127-140 | workshop, meeting and break have their own colours; every other type is drawn in the default blue |
| Reports.FindTally | components/reports-analytics.tsx:116 | no position exactly when no tally has that name; a found position holds a tally with that name |
| Reports.SessionsByType | components/reports-analytics.tsx:114-125 | the tallies come in order of each type's first session, each counts the sessions of its type, each has its type's colour, and together they count every session |
| Reports.TallyBump | components/reports-analytics.tsx:117-118 | adding one to an existing type's tally keeps the tallies in step with one more session |
| Reports.TallyAppend | components/reports-analytics.tsx:119-120 | appending a new type's tally keeps the tallies in step with one more session |
| Reports.TallyCoversTypes | components/reports-analytics.tsx:114-125 | every session's type has exactly one tally, and every tally counts at least one session |
| Reports.DailyActivity | components/reports-analytics.tsx:149-153 | one entry per day, with its caption, the leads created on it and the codes used on it |
| Reports.DaysAreDisjoint | components/reports-analytics.tsx:151-152 | two different dates of the same length never count the same lead or code, so their counts add up to at most the totals |
| Sessions.EmptySessionForm | components/session-manager.tsx:60-68 | a fresh session form is a presentation with no capacity limit and empty title and times |
| Sessions.EmptyPresentationForm | components/session-manager.tsx:70-77 | a fresh presentation form has no exhibitor, no session and no title |
| Sessions.Confirm | components/session-manager.tsx:147-150 | the rows with that id become confirmed; every other row is unchanged |
| Sessions.ConfirmSettles | components/session-manager.tsx:147-150 | confirming twice is confirming once; afterwards the button is gone for that id; no confirmed presentation is unconfirmed; the confirmed count never falls |
| Sessions.ConfirmCounts | components/session-manager.tsx:147-150 | confirming never lowers the number of confirmed presentations |
| Sessions.CapacityShown | components/session-manager.tsx:324-327 | the capacity is shown exactly when it is positive, as it is |
| Sessions.PresentationTable.Confirmation | components/session-manager.tsx:145-159 | a write the store accepts applies Confirm; a failed one leaves the rows unchanged |
| Sessions.SessionManager.constructor | components/session-manager.tsx:58-77 | the manager starts idle with both forms fresh |
| Sessions.SessionManager.CreateSession | components/session-manager.tsx:81-114 | a form without title, start or end is refused and nothing changes; otherwise it is inserted as it stands, reset only when the insert succeeds, and the busy flag ends down |
| Sessions.SessionManager.CreatePresentation | components/session-manager.tsx:116-143 | a form without exhibitor, session or title is refused and nothing changes; otherwise it is inserted as it stands, reset only on success, busy flag down |
| Sessions.DoubleSubmit | components/session-manager.tsx:82-107 | two sequential clicks on the create button insert at most one session |
| ExhibitorManagement.Searched | components/exhibitor-management.tsx:53-66 | an empty term shows every exhibitor; otherwise exactly the ones whose company, e-mail or booth holds the term, ignoring case |
| ExhibitorManagement.TypingMoreNarrows | components/exhibitor-management.tsx:59-64 | lengthening a non-empty term never brings back an exhibitor the shorter term hid |
| ExhibitorManagement.SetActive | components/exhibitor-management.tsx:75 | the rows with that id get the new active flag; every other row is unchanged |
| ExhibitorManagement.SetActiveSettles | components/exhibitor-management.tsx:75 | the last write wins, and writing the flag a row already has changes nothing |
| ExhibitorManagement.LeadBadge | components/exhibitor-management.tsx:177 | zero exactly when the row has no leads; otherwise the number of leads |
| ExhibitorManagement.StatusBadge | components/exhibitor-management.tsx:89-91 | "Activo" exactly for an active exhibitor, "Inactivo" exactly for an inactive one |
| ExhibitorManagement.BoothCell | components/exhibitor-management.tsx:167-174 | the booth number when there is one, otherwise "Sin asignar" |
| ExhibitorManagement.ExhibitorTable.WriteActive | components/exhibitor-management.tsx:75-77 | a write the store accepts applies SetActive; a failed one leaves the rows unchanged |
| ExhibitorManagement.ManagementView.constructor | components/exhibitor-management.tsx:43-44 | the view starts with an empty term showing every exhibitor |
| ExhibitorManagement.ManagementView.ApplySearch | components/exhibitor-management.tsx:53-66 | the list becomes Searched for the current term, never longer than the whole list the footer counts |
| ExhibitorManagement.ManagementView.ToggleExhibitorStatus | components/exhibitor-management.tsx:72-87 | the table gets the switch's write unless the store fails; success is recorded only for a write that went through; the busy flag ends down |
| Common.OrElse | components/leads-table.tsx:225 | the `or` fallback on an optional string: the value when present and non-empty, otherwise the fallback |
| Common.Filter | components/leads-table.tsx:53-66 | `filter` keeps exactly the elements that pass, as many as pass |
| Common.FilterFilter | components/leads-table.tsx:61-67 | two filters in a row are one filter by both conditions |
| Common.FilterAppend | components/leads-table.tsx:53-66 | filtering a concatenation concatenates the filtered parts, which is what keeps every filter in input order |
| Common.FilterAll | components/leads-table.tsx:52-67 | a filter that every element passes keeps the list as it is |
| Common.CountSplit | components/reports-analytics.tsx:98-107 | counts of two disjoint conditions add up to the count of either |
| Common.CountComplement | components/reports-analytics.tsx:109-112 | counts of a condition and its complement add up to the length |
| Common.InsertLog.Insert | components/session-manager.tsx:89-96 | an insert the store accepts appends its rows as one batch; a failed one appends nothing |
| Text.TrimIsSlice | components/exhibitor-bulk-actions.tsx:26-27 | `trim` removes exactly the leading and trailing white space |
| Text.Trim | components/exhibitor-bulk-actions.tsx:26-27 | the result is no longer than the input and neither starts nor ends with white space |
| Text.TrimEmptyIff | components/qr-code-generator.tsx:70 | a string trims to empty exactly when it is all white space |
| Text.ToLower | components/leads-table.tsx:55-57 | lower-casing keeps the length and maps each character |
| Text.IncludesIff | components/leads-table.tsx:55-57 | `includes` holds exactly when the term occurs at some position |
| Text.IncludesIgnoreCaseNarrows | components/exhibitor-management.tsx:61-63 | a string that holds a longer term, ignoring case, holds each prefix of it |
| Text.Split | components/exhibitor-bulk-actions.tsx:26-27 | `split` gives at least one piece, none holding the separator |
| Text.JoinSplit | components/exhibitor-bulk-actions.tsx:26-27 | joining the pieces of a split gives the string back |
| Text.SplitJoin | components/leads-table.tsx:104-119 | splitting a join of pieces without the separator gives the pieces back |
| Text.SplitCount | components/exhibitor-bulk-actions.tsx:26 | a split has one more piece than separators |
| Text.BeforeFirst | components/qr-code-generator.tsx:82 | `split(c)[0]`: the longest prefix without the separator |
| Text.NatToStringRoundTrip | components/notification-bell.tsx:46 | a number's decimal digits read back as the number |
| Text.PadStart | components/exhibitor-bulk-actions.tsx:49 | `padStart` fills on the left with the pad character to the target length and keeps the string at the end |

## Left out

- Camera access, the scan loops and canvas drawing in components/qr-scanner.tsx and components/qr-code-scanner-admin.tsx are device input; the scanners start from the code they were handed.
- The database client, its cookies and the authentication and sign-up calls are foreign library calls. Tables are class fields; a lookup's outcome and a write's failure are parameters.
- Realtime channel subscription, delivery order and teardown (components/notification-provider.tsx:43-168) are left out. Only the two handlers' effects on the list and counter are modelled, one event at a time.
- Two scanners redeeming the same code at once is a read-write race. Calls are sequential in the model.
- The e-mail route is not part of this model. The lead handler only reports whether it would call it, and that call's failure changes nothing.
- Clocks, `Date` parsing and `Math.random` are parameters: `now`, the instants `timeOf` gives, `stamp`, the random code parts, and the locale renderings `localeDate` and `labelOf`.
- Reports.DailyActivity: the seven ISO dates of the last week come from the clock, so the days are a parameter and the count of seven is not modelled.
- Floating-point percentages in the statistics cards and admin pages are not modelled.
- Text.ToLower lower-cases the ASCII letters only; JavaScript's full Unicode case mapping is not modelled.
- Reports.ShortName counts characters, not UTF-16 code units as JavaScript's `length` and `substring` do.
- Register.PasswordError counts characters, not the UTF-16 code units JavaScript's `length` counts: a password of two emoji and "aA1" has length 7 in the browser and 5 here, so the model reports it too short where the page does not.
- Register.NameError counts the trimmed name's characters, not UTF-16 code units: a single emoji has length 2 in the browser and passes there, but is too short here.
- ExhibitorCsv.Render: a number column holds an integer, so a fractional `benefit_percentage` and its decimal rendering are not modelled.
- Sessions.DoubleSubmit holds because calls are sequential and a successful create clears the form. The button's `disabled={isCreating}` guard against a click while the insert is pending is not modelled.
- Sessions.SessionManager.CreateSession: the capacity is an integer field, so `Number()` on the form value is not modelled.
- Reports.BreakdownTotals: a code's user type is one of the two values the generator writes, so the two code slices count every code exactly, where the source only guarantees at most.
- Blob and anchor download plumbing, toasts, console logging and page reloads are side effects with no state the model keeps. So is React's re-rendering. The `useState(() => apply…())` calls at components/leads-table.tsx:73-75 and components/exhibitor-management.tsx:68-70 run the filter once, when the component mounts; typing a search term or changing a filter afterwards does not run it again. The model's ApplySearch and ApplyFilters state what one run computes; that the application never repeats the run after mount is not modelled.
- Pure markup files, the QR image component and the two request forms each make a single fixed insert, and are not modelled.
- The admin pages whose only logic is the login and admin gate plus plain counts are not modelled, apart from the venue page. Their counts repeat filters that are modelled.
