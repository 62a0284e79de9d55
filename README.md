# DBM CSV import: a verified model

This project models the core of the DBM Odoo module's CSV import wizard
(`dbm.import.wizard`), together with the record constraints the module adds to
partners and projects:

- **Partner import.** Each CSV row goes through the same steps as in the wizard:
  - `_prepare_partner_data` runs three passes over the column mapping, sets defaults and drops an invalid e-mail or VAT number.
  - `_create_or_update_partner` searches for the partner by code, then writes over it or creates it.
  - `_update_partner_vat_cf_sql` writes the VAT number and fiscal code of a new partner, and appends a note to its comment when a write is refused.
  - The row loop of `_import_partners` tallies created, updated and failed rows.
  - The end of `_import_partners` renders the summary note and the notification.
- **Value rules** used by all imports:
  - multi-format date parsing;
  - phone clean-up;
  - VAT, postal-code and e-mail checks;
  - the project-code suffix cut of activity rows;
  - the stage and testing-status lookup tables;
  - tag de-duplication;
  - the helpdesk description wrapper.
- **Find-or-create lookups** of the project, activity and helpdesk imports: stages and tags are looked up by name and created when missing.
- **Model constraints:**
  - partner codes (`ref`) are unique;
  - project codes are unique;
  - a task's project code matches `XXXXX-YY`;
  - creating a task with a project code links it to that project.

How the files are laid out:

- `Common.dfy`: the Python string behaviour the code relies on (`strip`, `upper`, `lower`, `isdigit`, `isalnum`, `replace`, `split`/`join`, decimal rendering) and the `Value` type of record fields.
- `DateParsing.dfy`: `strptime` on the eight formats, and the `YYYY-MM-DD HH:MM:SS` rendering.
- `Normalise.dfy`: the pure value rules.
- `PartnerModel.dfy`, `ProjectModel.dfy`: the constraints of `dbm/models`.
- `PartnerImport.dfy`: partner preparation.
  - The method `PreparePartner` fills the dictionary in place, pass by pass.
  - It is proved equal to the function `PrepareSpec`.
  - `PrepareSpec` is in turn proved to match an independent, column-by-column reading, `PreparedField`.
- `PartnerUpsert.dfy`: the upsert and the VAT/fiscal-code writes.
  - The stored partners are the class `PartnerTable`.
  - `CreateOrUpdate` changes the table in place and is proved against `UpsertSpec`.
- `PartnerRun.dfy`: the row loop and the report.
  - The class `ImportWizard` holds the `note` field.
  - `ImportPartners` is proved to leave the table, the note and the notification that `ImportRun`, `ResultNote` and `Notify` describe.
- `ActivityPrep.dfy`: the name caches (stages, tags) as the class `NameCache`, and the helpdesk stages as the class `HelpdeskStages`.

Where a comment in the source and its code disagree, the model follows the code. The comment at wizard.py:1957 says the activity import extracts "000001-24" from "PROJECT_NAME-000001-24". The code drops only the part after the last dash, giving "PROJECT_NAME-000001" (`ActivityPrep.CommentExampleCut`). Neither reading is claimed as a finding. The comment's "000001-24" has six digits, so it is not a project code under the `XXXXX-YY` constraint either. The code, which a `Commessa` value of the form "XXXXX-YY-suffix" fits, may be right. What the model proves is when each form links a project: `ActivityProjectOfSuffixed`, `BareCodeNotFound` and `PrefixedCodeNotFound`.

The database is represented as follows:

- Anything the database answers is an input to the model:
  - the countries and states it finds;
  - the partners, projects and stages it has stored;
  - whether it refuses a write, a create or a direct SQL update (`HostFaults`, `WriteResult`).
- The stored records are tables searched in order by exact key, with `limit=1` taking the first match.
- Ids of new records come from a counter.

## Model

| member | source | states |
|---|---|---|
| DateParsing.ParseWith | dbm/wizard/wizard.py:96 | a match of one `strptime` format is a valid calendar date and time; date-only formats give 00:00:00, `%H:%M` formats give seconds 0 |
| DateParsing.FirstMatchFrom | dbm/wizard/wizard.py:94-101 | the index found is the first format from `k` on that matches; none found means no format from `k` on matches |
| DateParsing.ParseFirst | dbm/wizard/wizard.py:94-104 | parsing succeeds exactly when some format matches |
| DateParsing.ParseFirstIsFirst | dbm/wizard/wizard.py:94-101 | when format `i` matches and no earlier one does, the result is format `i`'s reading |
| DateParsing.Render | dbm/wizard/wizard.py:97 | the canonical rendering of a valid date is 19 characters long |
| DateParsing.ParseFormatted | dbm/wizard/wizard.py:96 | a date written in a format reads back as the same date with that format |
| DateParsing.ClockMismatch | dbm/wizard/wizard.py:84-91 | a time written with one clock layout is not read by another |
| DateParsing.FormatUnique | dbm/wizard/wizard.py:83-92 | a date written in one of the formats matches no other format |
| DateParsing.TestDateParsingAnyFormat | dbm/wizard/wizard.py:79-104 | a date written in any of the eight formats gives its canonical `YYYY-MM-DD HH:MM:SS` form |
| DateParsing.TestDateParsingCanonical | dbm/wizard/wizard.py:79-104 | the canonical form parses to itself |
| DateParsing.TestDateParsing | dbm/wizard/wizard.py:79-104 | a date string gives a canonical form iff one of the eight formats reads it, and that form is 19 characters long |
| DateParsing.ParseWarrantyDate | dbm/wizard/wizard.py:1067-1085 | a warranty date gives a canonical form iff one of the six warranty formats reads it, and that form is 19 characters long |
| DateParsing.WarrantyAgrees | dbm/wizard/wizard.py:1067-1085 | when the six-format warranty parser succeeds, it agrees with the eight-format parser |
| DateParsing.WarrantyDropsDashedDayFirst | dbm/wizard/wizard.py:1067-1085 | dates written `DD-MM-YYYY` are rejected by the warranty parser but read by the eight-format parser |
| DateParsing.ExampleWithSeconds | dbm/wizard/wizard.py:83-99 | "31/03/2024 1:00:00" gives "2024-03-31 01:00:00" |
| DateParsing.ExampleFormats | dbm/wizard/wizard.py:84-85 | "31/03/2024 1:00:00" fails `%d/%m/%Y %H:%M` and matches `%d/%m/%Y %H:%M:%S` |
| DateParsing.ExampleInvalidDate | dbm/wizard/wizard.py:94-104 | "31/02/2024" is not a date: every format fails |
| Normalise.CleanPhoneKeeps | dbm/wizard/wizard.py:542 | the phone clean-up is removing exactly space, `-`, `/`, `(` and `)` |
| Normalise.CleanPhoneContents | dbm/wizard/wizard.py:542 | no removed character remains, and every other character keeps its count |
| Normalise.CleanPhoneIdempotent | dbm/wizard/wizard.py:542 | cleaning twice is cleaning once |
| Normalise.VatCoreKeeps | dbm/wizard/wizard.py:1333 | the VAT core removes exactly space, `.` and `-` |
| Normalise.ValidateVat | dbm/wizard/wizard.py:1332-1337 | a non-empty VAT is kept, unchanged, exactly when its core is alphanumeric with at least 8 characters, otherwise it is deleted; no other key changes |
| Normalise.VatPunctuationIgnored | dbm/wizard/wizard.py:587-592 | inserting a space, `.` or `-` anywhere does not change acceptance |
| Normalise.VatSlashRejected | dbm/wizard/wizard.py:1334 | "IT1234/5678" is rejected |
| Normalise.VatTooShort | dbm/wizard/wizard.py:1334 | "123-4567" is rejected (7 characters after removal) |
| Normalise.EmailSingleAt | dbm/wizard/wizard.py:1325 | an accepted address has exactly one `@` |
| Normalise.ValidateEmail | dbm/wizard/wizard.py:1323-1329 | a non-empty e-mail is kept exactly when it matches the pattern, otherwise deleted; no other key changes |
| Normalise.EmailExamples | dbm/wizard/wizard.py:1325-1326 | "info@dbm.it" passes; "info@dbm" and "a@b.c" fail |
| Normalise.ZipAcceptedShape | dbm/wizard/wizard.py:1258-1262 | an accepted postal code has no surrounding whitespace, no dash and no space |
| Normalise.ZipExamples | dbm/wizard/wizard.py:1259 | "20121" and "1²345" (Python's isdigit() holds for superscripts) pass; four or six digits, a letter or an inner space fail |
| Normalise.StripProjectSuffixSpec | dbm/wizard/wizard.py:1958-1968 | a value without `-` is unchanged; otherwise result + "-" + last part is the value and the last part has no `-` |
| Normalise.StripProjectSuffixExample | dbm/wizard/wizard.py:1958-1968 | "P-7-24" becomes "P-7" |
| ActivityPrep.StripProjectSuffixOfSuffixed | dbm/wizard/wizard.py:1958-1968 | the cut removes exactly the dash-free part after the last dash |
| ActivityPrep.CommentExampleCut | dbm/wizard/wizard.py:1957-1964 | the comment's own example "PROJECT_NAME-000001-24" is cut to "PROJECT_NAME-000001" |
| Normalise.TestingStatus | dbm/wizard/wizard.py:1053-1062 | the status is always one of tested, pending, not_tested |
| Normalise.TestingStatusIgnoresCase | dbm/wizard/wizard.py:1061 | the lookup does not depend on letter case |
| Normalise.ProjectStageName | dbm/wizard/wizard.py:1517-1533 | the stage name is a standard name or the stripped value; an unmapped value gives the stripped value |
| Normalise.ProjectStandardNameFixed | dbm/wizard/wizard.py:1517-1533 | each standard project stage name maps to itself |
| Normalise.ProjectStageNameIdempotent | dbm/wizard/wizard.py:1529-1533 | mapping a mapped name again changes nothing |
| Normalise.TaskStage | dbm/wizard/wizard.py:1882-1902 | the task stage name is standard or the stripped value; the task is marked done exactly when the value reads 'ATTIVITÀ FATTA' |
| Normalise.TaskStandardNameFixed | dbm/wizard/wizard.py:1882-1888 | each standard task stage name maps to itself |
| Normalise.TaskStageNameIdempotent | dbm/wizard/wizard.py:1887-1888 | mapping a mapped name again changes nothing |
| Normalise.TaskStageDone | dbm/wizard/wizard.py:1882-1902 | 'COMPLETED' files the task under 'Attività fatta' without marking it done |
| Normalise.HelpdeskStageName | dbm/wizard/wizard.py:2264-2276 | the ticket stage name is standard or the stripped value; an unmapped value gives the stripped value |
| Normalise.HelpdeskKeyedNameFixed | dbm/wizard/wizard.py:2264-2276 | 'In corso', 'In attesa' and 'Annullato' are the stages of their own upper case and map to themselves |
| Normalise.HelpdeskUnkeyedNameFixed | dbm/wizard/wizard.py:2264-2276 | 'Nuovo', 'Fatto' and 'Respinto' are no key in upper case and pass through unchanged |
| Normalise.HelpdeskStandardNameFixed | dbm/wizard/wizard.py:2264-2276 | each standard helpdesk stage name maps to itself |
| Normalise.HelpdeskStageNameIdempotent | dbm/wizard/wizard.py:2275-2276 | mapping a mapped name again changes nothing |
| Normalise.NewHelpdeskStage | dbm/wizard/wizard.py:2282-2287 | a created stage has the mapped name and sequence 10; it is closed iff the key contains CHIUSO, and unattended iff it contains ATTESA or SOSPESO |
| Normalise.AddTagLinks | dbm/wizard/wizard.py:1912-1916 | the linked tag set gains exactly the tag; the list grows iff the tag was not linked; a duplicate-free list stays duplicate-free |
| Normalise.DescriptionRoundTrip | dbm/wizard/wizard.py:2327-2330 | the `<p>…</p>` wrapper with escaping and `<br/>` loses nothing: the text is recovered |
| Normalise.BodyUnescapes | dbm/wizard/wizard.py:2328-2329 | unescaping the escaped, line-broken body gives the value back |
| PartnerModel.CheckCodiceUnique | dbm/models/partner.py:19-33 | the check passes iff no checked record has a non-empty code shared with a partner of another id; a failure reports the first failing record's message; records without code always pass |
| PartnerModel.SingletonPasses | dbm/models/partner.py:26-28 | a record is excluded from its own duplicate search |
| PartnerModel.TablePassesIffRefsDistinct | dbm/models/partner.py:23-33 | checking all partners passes iff non-empty codes are pairwise distinct |
| ProjectModel.CheckProjectCodeUnique | dbm/models/project.py:39-54 | the check passes iff no record has a non-empty code shared with a project of another id; records without code pass |
| ProjectModel.ProjectSingletonPasses | dbm/models/project.py:46-49 | a project never conflicts with itself |
| ProjectModel.ProjectTablePassesIffCodesDistinct | dbm/models/project.py:44-54 | checking all projects passes iff non-empty codes are pairwise distinct |
| ProjectModel.CheckProjectCodeFormatAsWritten | dbm/models/project.py:90-101 | as written: passes iff each non-empty code matches `^\d{5}-\d{2}$` under `re.match`, which also lets one trailing newline through; a failure names the first code that does not match |
| ProjectModel.CheckProjectCodeFormat | dbm/models/project.py:90-101 | passes iff each non-empty code is five digits, `-`, two digits; a failure names the first bad code |
| ProjectModel.ExampleCodeAccepted | dbm/models/project.py:100 | "00001-24" is accepted |
| ProjectModel.TrailingNewlineLetThrough | dbm/models/project.py:96-97 | "00001-24\n" passes the check as written and fails the corrected one |
| ProjectModel.AsWrittenDiffersOnlyByNewline | dbm/models/project.py:96-97 | the two patterns differ exactly on one trailing newline |
| ProjectModel.FindByCode | dbm/models/project.py:79-81 | the project found is the first with the code; none is found iff no project has it |
| ProjectModel.ResolveProjectCode | dbm/models/project.py:75-88 | with a non-empty code of a stored project, `project_id` becomes that project, overriding a given one; otherwise the vals are unchanged; no other key ever changes |
| ProjectModel.ResolveIdempotent | dbm/models/project.py:77-83 | resolving twice is resolving once |
| ProjectModel.TaskCodeError | dbm/models/project.py:90-101 | creating a task raises the format message exactly when its non-empty project code is not XXXXX-YY |
| ProjectModel.TaskCodeErrorExamples | dbm/models/project.py:90-101 | code "ABC" is refused with the format message; "00001-24" and an empty code are not |
| ProjectModel.TaskStore.Create | dbm/models/project.py:75-101 | a task whose code fails the format constraint is refused with its message and nothing is stored; otherwise the task stored is the vals resolved as above, at the next position |
| PartnerImport.FindState | dbm/wizard/wizard.py:1271-1285 | the state found is the first with the code, and the country when one was found; none is found iff no state matches |
| PartnerImport.PreparePartner | dbm/wizard/wizard.py:1237-1362 | the in-place passes and defaults give exactly `PrepareSpec` |
| PartnerImport.FirstPassEntry | dbm/wizard/wizard.py:1243-1264 | one mapping entry of the first pass changes the dictionary as the first-pass step describes |
| PartnerImport.RunFirstPass | dbm/wizard/wizard.py:1243-1264 | the first pass fills the dictionary as the first-pass fold describes |
| PartnerImport.RunSecondPass | dbm/wizard/wizard.py:1266-1288 | the second pass sets the state as the second-pass fold describes |
| PartnerImport.RunThirdPass | dbm/wizard/wizard.py:1290-1299 | the third pass sets VAT and phone as the third-pass fold describes |
| PartnerImport.ApplyDefaults | dbm/wizard/wizard.py:1301-1360 | defaults, the code check and validation give exactly `Finish` |
| PartnerImport.MappingEntry | dbm/wizard/wizard.py:214-230 | every field except comment and the company flags is fed by exactly one column |
| PartnerImport.MappingTargets | dbm/wizard/wizard.py:214-230 | no column feeds the company flags; only Num.tel.2 and Fax feed the comment |
| PartnerImport.FirstPassCountry | dbm/wizard/wizard.py:1249-1254 | the country of the first pass is the one the NAZIONE code finds |
| PartnerImport.CollectedIs | dbm/wizard/wizard.py:1243-1299 | after the three passes every field holds what its column gives (the fax over the second phone in the comment) |
| PartnerImport.SecondPassSingle | dbm/wizard/wizard.py:1266-1288 | the state is set iff the province is given and a state with that code (and the country's id, when found) exists |
| PartnerImport.ThirdPassSingle | dbm/wizard/wizard.py:1290-1299 | VAT and phone are set iff their column is given, to the stripped cell |
| PartnerImport.ValidatedEmail | dbm/wizard/wizard.py:1323-1329 | after validation the e-mail is present exactly when its stripped cell is accepted, and then holds that cell |
| PartnerImport.ValidatedVat | dbm/wizard/wizard.py:1332-1337 | after validation the VAT number is present exactly when its stripped cell is accepted, and then holds that cell |
| PartnerImport.DefaultNameIs | dbm/wizard/wizard.py:1302-1303 | a blank name falls back to the code |
| PartnerImport.PrepareFailsIffNoCode | dbm/wizard/wizard.py:1312-1320 | preparing fails iff the Codice cell is blank, with "Codice is required" |
| PartnerImport.Complete | dbm/wizard/wizard.py:1341-1360 | the flags, the country and the comment it sets are those that `Completed` describes |
| PartnerImport.CompletedIs | dbm/wizard/wizard.py:1341-1359 | the company flags are set, Italy replaces the country when it exists, the notes replace the comment when present; nothing else changes |
| PartnerImport.PrepareOutcome | dbm/wizard/wizard.py:1237-1362 | with a code, the prepared partner is field by field the independent column-by-column reading `PreparedField` |
| PartnerImport.PreparedPhoneKeepsPunctuation | dbm/wizard/wizard.py:1298-1299 | the partner path keeps the phone as written, only stripped |
| PartnerImport.PreparedZip | dbm/wizard/wizard.py:1258-1262 | with a code, the postal code is kept iff the stripped CAP cell is five Python digits, and then it is that cell |
| PartnerUpsert.AppendComment | dbm/wizard/wizard.py:1438-1449 | the comment becomes the old comment followed by the message (the message alone when empty); nothing else changes |
| PartnerUpsert.HatchSpec | dbm/wizard/wizard.py:1418-1476 | corrected: the comment gains the VAT note and the fiscal-code note of each refused write; each accepted write sets its field; other fields unchanged |
| PartnerUpsert.HatchAsWrittenAgrees | dbm/wizard/wizard.py:1426-1476 | unless both writes are refused, the code as written equals the corrected one |
| PartnerUpsert.HatchAsWrittenLosesVatNote | dbm/wizard/wizard.py:1435-1461 | with both writes refused, the code as written keeps only the fiscal-code note |
| PartnerUpsert.FindFirst | dbm/wizard/wizard.py:1381 | the partner found is a stored partner that has the key |
| PartnerUpsert.FindFirstSpec | dbm/wizard/wizard.py:1381 | no partner before the one found has the key; none is found iff no partner has it |
| PartnerUpsert.UpsertKeepsIds | dbm/wizard/wizard.py:1383-1397 | ids stay positive, pairwise distinct and below the next id, and the next id never decreases |
| PartnerUpsert.UpsertCreatesIffNew | dbm/wizard/wizard.py:1374-1397 | with a code and no refused create, the upsert succeeds, creates iff no stored partner has that code, and the table grows by one exactly then |
| PartnerUpsert.UpsertKeepsRefs | dbm/wizard/wizard.py:1383-1392 | without a create, no partner's code or id changes |
| PartnerUpsert.UpsertCreatesFreshRef | dbm/wizard/wizard.py:1393-1397 | a created partner is appended with the next id and a code no stored partner had |
| PartnerUpsert.UpsertKeepsRefsDistinct | dbm/wizard/wizard.py:1374-1397 | distinct codes stay distinct |
| PartnerUpsert.UpsertAgainChangesNothing | dbm/wizard/wizard.py:1374-1392 | repeating an accepted upsert finds the partner, reports an update and leaves the table as it was |
| PartnerUpsert.UpdateKeepsVatAndCf | dbm/wizard/wizard.py:1369-1392 | an update never writes VAT or fiscal code |
| PartnerUpsert.PartnerTable.CreateOrUpdate | dbm/wizard/wizard.py:1364-1416 | the table after the call and the outcome are `UpsertSpec` of the table before |
| PartnerRun.PrepareCodeFacts | dbm/wizard/wizard.py:1312-1320 | a prepared row fails iff its code is blank, else carries its stripped code |
| PartnerRun.RowStepCounts | dbm/wizard/wizard.py:239-271 | each row lands in exactly one of created, updated, errors |
| PartnerRun.RowWithoutCode | dbm/wizard/wizard.py:253-258 | a row without code adds "Row N - name (Codice: code): Codice is required" and changes nothing else |
| PartnerRun.RowWithCode | dbm/wizard/wizard.py:242-250 | a row with code, create not refused, is listed as created iff no stored partner has the code, else as updated |
| PartnerRun.RunCounts | dbm/wizard/wizard.py:239-271 | after n rows the three lists hold n more entries in total |
| PartnerRun.RunTally | dbm/wizard/wizard.py:239-277 | the counts add up to the number of rows; with every code given and no create refused there are no errors |
| PartnerRun.RunKeepsCodesUnique | dbm/models/partner.py:19-33 | after any import the code constraint still holds on every partner |
| PartnerRun.RunStoresCodes | dbm/wizard/wizard.py:239-250 | with no create refused, every row's code is stored afterwards |
| PartnerRun.RunOverStoredCodes | dbm/wizard/wizard.py:239-250 | rows whose codes are all stored create nothing |
| PartnerRun.ReimportCreatesNothing | dbm/wizard/wizard.py:1375-1397 | after an import in which no create was refused, importing the same file again creates no partner |
| PartnerRun.ItemLine | dbm/wizard/wizard.py:282-283 | every listed item has its own "- item" line, in order |
| PartnerRun.LinesOfPrefix | dbm/wizard/wizard.py:282-283 | the lines of the first n items depend only on those items |
| PartnerRun.SectionShowsFirstTen | dbm/wizard/wizard.py:280-301 | entries after the tenth never reach a section: lists of equal length that agree on their first ten give the same text |
| PartnerRun.ResultNoteShowsFirstTen | dbm/wizard/wizard.py:274-301 | the note depends on each list only through its length and its first ten entries |
| PartnerRun.AppendLines | dbm/wizard/wizard.py:282-283 | the loop appends one bullet line per item, in order, for the first `n` items |
| PartnerRun.AppendSection | dbm/wizard/wizard.py:280-301 | the loop appends exactly the section: header, first ten lines, overflow line iff more than ten |
| PartnerRun.Notify | dbm/wizard/wizard.py:305-319 | title "Import Completato"; success iff no errors; the message carries the counts, the error count only when non-zero |
| PartnerRun.NotifyReadsBack | dbm/wizard/wizard.py:307-309 | each count in the message reads back as the count |
| PartnerRun.ImportWizard.ImportPartners | dbm/wizard/wizard.py:239-319 | the table, the note and the notification are those of the whole-run functions |
| ActivityPrep.ResolveName | dbm/wizard/wizard.py:1891-1897 | the name is cached with the id returned; an existing id is kept; a new one differs from all cached ids; no other entry changes |
| ActivityPrep.ResolveTwice | dbm/wizard/wizard.py:1891-1897 | a second lookup of the same name finds the same id and creates nothing |
| ActivityPrep.ResolveKeepsInjective | dbm/wizard/wizard.py:1905-1911 | creating never gives two names the same id |
| ActivityPrep.NameCache.Resolve | dbm/wizard/wizard.py:1905-1911 | the cache after the call and the id are `ResolveName` of the cache before |
| ActivityPrep.ResolveProjectStage | dbm/wizard/wizard.py:1513-1541 | the project stage is found or created under its mapped name |
| ActivityPrep.ResolveTaskStage | dbm/wizard/wizard.py:1880-1902 | the task stage is found or created under its mapped name; done iff 'ATTIVITÀ FATTA' |
| ActivityPrep.FindStage | dbm/wizard/wizard.py:2279 | the stage found is the first with the name; none iff no stage has it |
| ActivityPrep.HelpdeskStages.FindOrCreate | dbm/wizard/wizard.py:2262-2290 | the stage returned has the mapped name; an existing stage is reused unchanged, otherwise one new stage with its flags is appended |
| ActivityPrep.HelpdeskResolveTwice | dbm/wizard/wizard.py:2279-2290 | a second ticket with the same stage finds the same stage and creates nothing |
| ActivityPrep.TagsUpToSpec | dbm/wizard/wizard.py:1903-1916 | after the tag values every value is cached and the commands link each value's tag exactly once |
| ActivityPrep.BuildTags | dbm/wizard/wizard.py:1903-1916 | the commands and cache after the loop are `TagsUpTo` |
| ActivityPrep.SameTagLinkedOnce | dbm/wizard/wizard.py:1912-1916 | the same tag in both tag columns is linked once |
| ActivityPrep.ActivityProject | dbm/wizard/wizard.py:1956-1974 | a project is linked iff the cut value is non-empty and some project has the stripped cut value as code, and then it is the first project with that code |
| ActivityPrep.ActivityProjectOfSuffixed | dbm/wizard/wizard.py:1956-1974 | "code-suffix", with no `-` in the suffix, links the first project with that code |
| ActivityPrep.BareCodeNotFound | dbm/wizard/wizard.py:1958-1970 | a Commessa value that is itself a well-formed code XXXXX-YY never matches a project with a well-formed code |
| ActivityPrep.PrefixedCodeNotFound | dbm/wizard/wizard.py:1956-1974 | "name-XXXXX-YY" is cut to "name-XXXXX", and never links the activity to a project with a well-formed code |

## Left out

- The CSV text itself is not modelled. base64 decoding, encoding detection and `csv.DictReader` are library parsing; rows are given as maps from column name to cell text.
- The database is represented by inputs. ORM `search`, `create` and `write` are exact-key lookups over in-memory tables; `ilike` matching and archived records are not modelled.
- Refused ORM writes, refused creates and refused direct SQL updates are input flags (`HostFaults`). Their error texts are parameters.
- Transactions are reduced to their logical effect, except in the VAT/fiscal-code writes. `cr.commit` and `cr.rollback` outside those writes are not modelled. In particular, the rollback after a refused update write also discards earlier uncommitted rows.
- A failing comment-update SQL statement inside the VAT/fiscal-code writes (the `e2` handlers at wizard.py:1450 and 1475) is not modelled: the append is assumed to succeed.
- Logging (`_log_import_error`, `_logger`) is a side effect only.
- Timezone conversion of activity dates (pytz) depends on a foreign timezone database.
- `datetime.now()` codes, ticket numbers and `ir.sequence` are nondeterministic or foreign.
- `_test_project_creation` and the module-installed probes are environment probes.
- The person, project, stock-lot, activity and ticket row loops and their upserts are not modelled. Only their value rules and lookups are: dates, phone, VAT, testing status, stages, tags, project code and description.
- Character classes (`isspace`, `isdigit`, `isalnum`, `upper`, `lower`, `\d`) are modelled for U+0000..U+00FF only. The CSV data is Latin-script text; other scripts are not covered.
- `html.escape` is modelled in full for the characters it changes (`& < > " '`).
- PartnerUpsert.UpsertSpec: a created partner gets the corrected VAT/fiscal-code writes (`Hatch`, under "## Findings"). When both SQL updates are refused, it keeps the VAT note that the source's rollback at wizard.py:1461 discards. `HatchAsWritten` is the code as written, and `HatchAsWrittenAgrees` shows the two differ only in that case.
- PartnerUpsert.PartnerTable.CreateOrUpdate: proved against `UpsertSpec`, so it keeps the same VAT note the source loses when both SQL updates are refused.
- PartnerRun.ImportWizard.ImportPartners: the table it leaves comes from `ImportRun` over `UpsertSpec`. For a new partner whose VAT and fiscal-code updates are both refused, the comment holds the VAT note the source loses.
- DateParsing.Render: renders `%Y` zero-padded to four digits. CPython on glibc without the gh-120713 change writes years 1 to 999 without leading zeros; that rendering is not modelled.
- DateParsing.TestDateParsingAnyFormat: its canonical form is the padded one of `Render`. On a host that writes years below 1000 unpadded, those years come out shorter.
- DateParsing.TestDateParsingCanonical: holds for the padded rendering. An unpadded year below 1000 has fewer than the four digits `%Y` reads, so on such a host it would not read back.
- ProjectModel.TaskStore.Create: applies the corrected format check (`CheckProjectCodeFormat`, under "## Findings"). A code with one trailing newline is refused, where the source's `re.match` stores the task. A later `write` of `project_code`, which would run the same constraint, is not modelled.
- `PartnerRun.RowStep` does not model `if partner_data:` (wizard.py:243) as a branch. After preparation the dictionary always holds at least the code, so the test is always true.
- `PartnerUpsert.UpsertAgainChangesNothing` requires that the first upsert met no refusals. When a VAT or fiscal-code write was refused and the row has notes (Num.tel.2 or Fax), the second import overwrites the comment, refusal note included, with the row's notes. A row without notes leaves the table as it was. When the first update write was refused, the record was never merged.
- `ActivityPrep.NameCache.Resolve` covers task stages, tags and project stages alike. The project import searches `project.project.stage` each time instead of keeping a dictionary, but with exact-name search over a table the two are the same.
- `Normalise.TestingStatus` and the stock-lot warranty dates cover only the value rules of the stock-lot import (`DateParsing.WarrantyAgrees`).

## Findings

| source | as written | input that shows it | evidently intended | confidence | as-written member | corrected member |
|---|---|---|---|---|---|---|
| dbm/wizard/wizard.py:1435-1461 | a refused VAT write appends its note without committing it; a refused fiscal-code write then rolls back to the last commit, discarding that note | a new partner whose VAT write and fiscal-code write are both refused | both notes are kept, as the docstring says ("both errors are logged", wizard.py:1422) | not executed | PartnerUpsert.HatchAsWritten (PartnerUpsert.HatchAsWrittenLosesVatNote) | PartnerUpsert.HatchSpec |
| dbm/models/project.py:96-97 | `re.match(r'^\d{5}-\d{2}$', code)`: Python's `$` also matches before one final newline | project code "00001-24\n" passes | only XXXXX-YY passes (`re.fullmatch`) | not executed | ProjectModel.CheckProjectCodeFormatAsWritten (ProjectModel.TrailingNewlineLetThrough) | ProjectModel.CheckProjectCodeFormat |
