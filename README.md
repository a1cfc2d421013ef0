# medimate-scheduler in Dafny

medimate-scheduler is a web application that drives a pill dispenser. The
model covers its core:

- The Next.js routes keep five flat JSON files: schedules, the supplement
  catalogue, the supplement-to-motor mapping, the desired LED state and the
  user accounts.
  - The dispenser polls three of these routes: for the dose command due now,
    for the LED state, and to report how many pills remain.
- The React components work on those routes: the weekly schedule page, its
  two dialogs (new schedule, motor mapping), the mapping page, the catalogue
  page and the sign-in card.

The route modules model the server side:

- A file is `Stored<T>`: missing, blank, unparsable, or holding a value.
  `Store.DataDir` is the data directory, one field per file.
- Each route handler is a method over `DataDir`.
  - Its `modifies` clause names the one file it may write.
  - Whether the write reaches the disk is a `writeOk` parameter. A failed
    write answers 500 and leaves the file as it was.
- Request bodies, query parameters and the clock reading are parameters.

The client side is modelled like this:

- Each component with state is a class whose fields are its React state.
- Each event handler is a method.
- The outcome of a request is a parameter: `apiOk`, the fetched data, or the
  reply.
- Pure helpers are functions: `compareTimes`, the sort comparator, the day
  grouping, the id generator, the motor-conflict check.
- Each handler is tied to the server's behaviour by lemmas (e.g.
  `MappingPage.PageAgreesWithServer`, `SupplementsAdmin.DeleteTracksServer`).

JavaScript semantics that matter are written out in `Text`:

- `trim` and `\s`;
- `parseInt` reading a decimal prefix;
- `Number` of a string (`""` and white space are 0; anything that is not a
  decimal number is NaN);
- truthiness (`0` and `""` are falsy);
- `padStart`;
- `String(n)`.

`Sorting.SortBy` is a stable insertion sort: `Array.prototype.sort` with a
comparator. The model relies only on its result being a permutation and, for
a comparator consistent with a key, sorted by that key.

Notes on the code:

- The dose-command route keeps no execution record and writes nothing. The
  same poll within the same minute gets the same command again
  (`MotorCommand.Get`).
- The dose-command route reads the mapping file as an ARRAY of records keyed
  by `supplementId`. The other routes and pages keep that file as an OBJECT
  from supplement name (or id, on the mapping page) to motor number. The
  model keeps both shapes as the code has them: `MotorCommand.MappingRecord`
  and `map<string, int>`.
- The sign-in card never calls `registerUser`. Accounts registered in the
  card live only in its state (`Login.LoginForm`).

## Model

| member | source | states |
|---|---|---|
| Store.ReadOr | src/app/api/supplements/route.ts:27-37 | a file holding a value reads as that value; a missing, blank or unparsable one reads as the route's default |
| MotorCommand.DayName | src/app/api/esp32/motor-command/route.ts:29-32 | `getDayStringForSchedule`: the Sunday-first weekday name; its relation to the week order is stated by MotorCommand.DayNameInWeekOrder |
| MotorCommand.DayNameInWeekOrder | src/app/api/esp32/motor-command/route.ts:29-32 | the Sunday-first `getDay` name of day n is the Monday-first week order's entry (n+6) mod 7 |
| MotorCommand.TimeString | src/app/api/esp32/motor-command/route.ts:55 | the padded current time is a well-formed HH:MM whose hour and minute read back as the clock's |
| MotorCommand.FindMapping | src/app/api/esp32/motor-command/route.ts:65 | none exactly when no record has the supplement's id; otherwise the FIRST record with it |
| MotorCommand.CommandFor | src/app/api/esp32/motor-command/route.ts:67-79 | quantity is the schedule's when non-zero, else 1; rotations = quantity × rotationsPerPill; motor, supplement and schedule id copied |
| MotorCommand.FirstCommand | src/app/api/esp32/motor-command/route.ts:61-86 | the loop over the schedules as a function; what it returns is stated by MotorCommand.FirstCommandIsFirstDispatchable |
| MotorCommand.FirstCommandIsFirstDispatchable | src/app/api/esp32/motor-command/route.ts:61-86 | a command exists iff some schedule is due now and mapped, and it is built from the first such schedule: due but unmapped ones are skipped, later ones ignored |
| MotorCommand.Get | src/app/api/esp32/motor-command/route.ts:43-94 | no schedules, then no mappings, then the loop's result equals the first-dispatchable command, or `no_command_due` with the checked time and day |
| MotorCommand.ExactMinute | src/app/api/esp32/motor-command/route.ts:63 | a schedule due at one hour:minute is not due at any other |
| MotorCommand.DueOnOneWeekday | src/app/api/esp32/motor-command/route.ts:53-63 | the case-insensitive day match holds for at most one weekday |
| DispenserMapping.Merge | src/app/api/dispenser-mapping/route.ts:70-72 | the merged keys are the union; incoming entries win, other existing ones are kept |
| DispenserMapping.PlanDelete | src/app/api/dispenser-mapping/route.ts:88-104 | reset iff no or empty name; 404 iff the name is not a key; otherwise exactly that key is removed and all other entries kept |
| DispenserMapping.PlanDeleteAsWritten | src/app/api/dispenser-mapping/route.ts:92-96 | with the `in` operator as written, agrees with the intended plan for every name that is not an inherited property |
| DispenserMapping.InheritedNameIsNotNotFound | src/app/api/dispenser-mapping/route.ts:92-99 | as written, deleting `toString` from an empty mapping reports success where the intended plan is 404 |
| DispenserMapping.Get | src/app/api/dispenser-mapping/route.ts:51-60 | 200 with the stored mapping, `{}` when there is none |
| DispenserMapping.Post | src/app/api/dispenser-mapping/route.ts:62-81 | unparsable body 500; null, non-object or empty object 400; otherwise the merge is stored and the body echoed with 201; failed write 500, file unchanged |
| DispenserMapping.Delete | src/app/api/dispenser-mapping/route.ts:83-111 | follows the corrected delete plan (own keys only; see Findings): writes `{}` or the reduced mapping, or 404 without writing; failed write 500, file unchanged |
| DispenserMapping.DeleteTwice | src/app/api/dispenser-mapping/route.ts:92-99 | deleting a mapped name succeeds once and answers 404 the second time |
| Supplements.AddVerdict | src/app/api/supplements/route.ts:62-73 | 400 iff id or name falsy; then 409 duplicate id; then 409 duplicate name; created exactly when neither is taken |
| Supplements.AddKeepsUniqueKeys | src/app/api/supplements/route.ts:68-75 | an accepted addition keeps ids and names unique across the catalogue |
| Supplements.NameOf | src/app/api/supplements/route.ts:100 | a non-empty result is the name of a record with that id; with unique ids it is THE record's name |
| Supplements.DeleteVerdict | src/app/api/supplements/route.ts:93-120 | 400 without id; 409 iff a schedule refers to the id or name; then 409 if the name, then the id, is a mapping key; then 404 iff no record has the id; else removal |
| Supplements.Remaining | src/app/api/supplements/route.ts:114-118 | exactly the records with another id; same length iff the id was absent |
| Supplements.RemainingKeepsUniqueKeys | src/app/api/supplements/route.ts:116 | filtering keeps ids and names unique |
| Supplements.DeleteLeavesNoDanglingReference | src/app/api/supplements/route.ts:97-124 | after a successful delete no schedule and no mapping key names the removed record, and the id is gone |
| Supplements.Get | src/app/api/supplements/route.ts:48-56 | 200 with the stored catalogue, `[]` when there is none |
| Supplements.Post | src/app/api/supplements/route.ts:58-86 | SyntaxError 400; null body 500; otherwise the verdict, with the record appended on creation; failed write 500, file unchanged |
| Supplements.Delete | src/app/api/supplements/route.ts:88-129 | the verdict over the stored schedules, catalogue and mapping; removal writes the remaining records; failed write 500, file unchanged |
| Schedules.NewerThan | src/app/api/schedules/route.ts:67-71 | exactly the schedules with a numeric timestamp later than the bound, never more than the list |
| Schedules.List | src/app/api/schedules/route.ts:52-74 | absent or empty parameter lists all; `Number` NaN is 400; `parseInt` NaN is 400; otherwise the newer schedules |
| Schedules.BlankParameterIsNotATimestamp | src/app/api/schedules/route.ts:54-65 | a blank parameter passes the `Number` test and fails the `parseInt` one |
| Schedules.PollAfter | src/app/api/schedules/route.ts:60-72 | polling with `String(t)` returns exactly the schedules created after t |
| Schedules.NewScheduleIsDelivered | src/app/api/schedules/route.ts:88-91 | a schedule appended with a later timestamp is delivered by the next poll, after the earlier qualifying ones |
| Schedules.Get | src/app/api/schedules/route.ts:49-79 | the listing of the stored schedules for the parameter |
| Schedules.Post | src/app/api/schedules/route.ts:81-96 | unparsable body 500; falsy body or a non-string field 400; otherwise appended and echoed with 201; failed write 500, file unchanged |
| Quantity.FindIndexByName | src/app/api/esp32/quantity/route.ts:50 | -1 iff no entry has the name; otherwise the first index holding it |
| Quantity.WithQuantity | src/app/api/esp32/quantity/route.ts:53 | only entry i changes, and only its quantity |
| Quantity.ParseReport | src/app/api/esp32/quantity/route.ts:20-32 | 400 iff a parameter is absent or empty, or the count has no leading integer; otherwise the name and `parseInt` of the count |
| Quantity.Report | src/app/api/esp32/quantity/route.ts:18-71 | parameter errors first; a missing or unreadable catalogue is 500; unknown name 404; otherwise the first entry with that name gets the count; failed write 500, file unchanged |
| LedState.ParseLed | src/lib/ledState.ts:62-64 | exactly the words `on` and `off` denote a state, and each reads back as itself |
| LedState.StoredLed | src/lib/ledState.ts:56-73 | the stored word when it is `on` or `off`; anything else reads as off, so on only from a file holding `on` |
| LedState.Initialize | src/lib/ledState.ts:16-41 | a missing file is created holding off, or the call fails; an existing file is untouched |
| LedState.GetLedState | src/lib/ledState.ts:56-73 | never fails; answers the state stored before the call and creates a missing file when it can |
| LedState.SetLedState | src/lib/ledState.ts:79-91 | succeeds iff the file exists or is created and the state write succeeds, and then the file holds the new state; a failed state write after a successful creation leaves `off`; otherwise the file is unchanged |
| LedState.SetThenGet | src/lib/ledState.ts:79-91 | a stored state reads back as itself |
| LedRoute.Get | src/app/api/esp32/led/route.ts:6-28 | 200 with the stored state |
| LedRoute.Post | src/app/api/esp32/led/route.ts:31-54 | unparsable or null body 500; any state but `on`/`off` 400; otherwise stored and acknowledged, or 500 with the file unchanged except for a missing file created holding `off` |
| UserActions.AppendKeepsUnique | src/lib/user-actions.ts:28-35 | appending an account whose name is free keeps usernames unique |
| UserActions.RegisterUser | src/lib/user-actions.ts:28-36 | a taken name throws without writing; otherwise the account is appended; a failed write throws, file unchanged |
| Login.LoginForm.constructor | src/components/Login.tsx:13-18 | empty fields, no error, sign-in mode, no accounts |
| Login.LoginForm.Type | src/components/Login.tsx:81-115 | the three inputs hold what was typed |
| Login.LoginForm.HandleLogin | src/components/Login.tsx:20-34 | signs in iff the pair is registered or is root/1234; otherwise `Invalid credentials` |
| Login.LoginForm.HandleRegistration | src/components/Login.tsx:36-54 | mismatched passwords, then a taken name, refuse without change; otherwise the account is added, names stay unique, mode returns to sign-in and the new pair authenticates |
| Login.LoginForm.Submit | src/components/Login.tsx:20-117 | blocked iff a required field is empty, then nothing changes; sign-in succeeds iff the pair authenticates, else `Invalid credentials`; registration refuses mismatched passwords, then a taken name, else adds the account, returns to sign-in and the new pair authenticates |
| Login.LoginForm.ToggleForm | src/components/Login.tsx:56-62 | switches mode and clears the inputs and the error |
| Login.RegisteredCanSignIn | src/components/Login.tsx:20-34 | credentials just registered sign in |
| Login.WrongPasswordRefused | src/components/Login.tsx:20-34 | with unique names, a wrong password for a registered non-root name does not sign in |
| ScheduleOrder.ClockParts | src/components/SchedulePage.tsx:19-20 | splitting a well-formed HH:MM at `:` gives its hour and minute |
| ScheduleOrder.CompareTimes | src/components/SchedulePage.tsx:18-27 | `compareTimes` with NaN pieces written out; its sign on well-formed times is stated by ScheduleOrder.CompareClockTimes |
| ScheduleOrder.CompareClockTimes | src/components/SchedulePage.tsx:18-27 | on well-formed times `compareTimes` is a number whose sign is that of the difference in minutes since midnight |
| ScheduleOrder.DayIndex | src/components/SchedulePage.tsx:221-224 | -1 iff the day is not a weekday name; otherwise its Monday-first position |
| ScheduleOrder.SortSchedules | src/components/SchedulePage.tsx:221-229 | the sorted list is a permutation of the input |
| ScheduleOrder.CompareSchedules | src/components/SchedulePage.tsx:222-229 | the sort comparator, day index first, then `compareTimes`; its sign is stated by ScheduleOrder.ScheduleOrderConsistent |
| ScheduleOrder.ScheduleOrderConsistent | src/components/SchedulePage.tsx:222-229 | the comparator's sign is that of the difference in minutes since Monday 00:00 |
| ScheduleOrder.SortedSchedules | src/components/SchedulePage.tsx:221-229 | with well-formed times the list is sorted by weekday (unknown days first), then by time, and is a permutation |
| ScheduleOrder.OnDay | src/components/SchedulePage.tsx:402 | exactly the schedules of that day |
| ScheduleOrder.AtTime | src/components/SchedulePage.tsx:411 | exactly the schedules at that time |
| ScheduleOrder.Times | src/components/SchedulePage.tsx:403 | the time of each schedule, in order |
| ScheduleOrder.Entries | src/components/SchedulePage.tsx:412-415 | the id and supplement of each schedule, in order |
| ScheduleOrder.Grouped | src/components/SchedulePage.tsx:401-418 | seven groups, Monday to Sunday |
| ScheduleOrder.DayTimes | src/components/SchedulePage.tsx:402-404 | a day's row times: distinct and complete by ScheduleOrder.DayTimesDistinct, strictly earliest first by ScheduleOrder.DayTimesSorted |
| ScheduleOrder.DayTimesDistinct | src/components/SchedulePage.tsx:403 | a day's times have no repeats and are exactly the times of its schedules |
| ScheduleOrder.SortClockTimes | src/components/SchedulePage.tsx:404 | distinct well-formed times sort strictly earliest first |
| ScheduleOrder.DayTimesSorted | src/components/SchedulePage.tsx:402-404 | with well-formed times a day's rows are strictly earliest first |
| ScheduleOrder.GroupSlot | src/components/SchedulePage.tsx:409-416 | row k of day i is the slot of that day's k-th time |
| ScheduleOrder.SlotHolds | src/components/SchedulePage.tsx:409-416 | a schedule's entry is in the slot of its own day and time |
| ScheduleOrder.GroupedPlacesEverySchedule | src/components/SchedulePage.tsx:401-418 | every schedule on a weekday appears in a row of its day with its own time |
| ScheduleOrder.GroupedEntriesBelong | src/components/SchedulePage.tsx:401-418 | every rendered entry comes from a schedule of that day and row time |
| SchedulePage.NotificationKey | src/components/SchedulePage.tsx:141 | the key is the prefix, the id, a hyphen and the date |
| SchedulePage.KeyDeterminesId | src/components/SchedulePage.tsx:141 | on one date, equal keys mean equal schedule ids |
| SchedulePage.MotorFor | src/components/SchedulePage.tsx:158-160 | a motor exactly when the supplement has a truthy entry, and then that entry |
| SchedulePage.Check | src/components/SchedulePage.tsx:139-160 | one pass of the reminder loop over the schedules as a function; its keys, reminders and their freshness are stated by SchedulePage.CheckShown, SchedulePage.NoticesAreFresh and SchedulePage.FreshAreNoticed |
| SchedulePage.CheckShown | src/components/SchedulePage.tsx:139-149 | after a check the session keys are the old ones plus exactly the due schedules' keys |
| SchedulePage.NoticesAreFresh | src/components/SchedulePage.tsx:139-160 | every reminder is for a due schedule not yet shown, with its supplement and motor |
| SchedulePage.FreshAreNoticed | src/components/SchedulePage.tsx:139-149 | every due schedule not yet shown gets a reminder |
| SchedulePage.NoticesDistinct | src/components/SchedulePage.tsx:139-149 | no schedule id is reminded of twice in one check |
| SchedulePage.SilentWhenAllShown | src/components/SchedulePage.tsx:143 | once every due key is set, a check raises and sets nothing |
| SchedulePage.RepeatIsSilent | src/components/SchedulePage.tsx:141-149 | a second check at the same moment raises nothing |
| SchedulePage.Page.constructor | src/components/SchedulePage.tsx:41 | no schedules and no reminder keys |
| SchedulePage.Page.FetchSchedules | src/components/SchedulePage.tsx:207-240 | success replaces the list by the server's list sorted by day and time; failure keeps it |
| SchedulePage.Page.AddSchedule | src/components/SchedulePage.tsx:242-303 | the new schedule joins the sorted list; a failed POST then removes every schedule with its id |
| SchedulePage.Page.DeleteSchedule | src/components/SchedulePage.tsx:305-342 | success removes every schedule with the id; failure restores the list |
| SchedulePage.Page.CheckSchedules | src/components/SchedulePage.tsx:131-198 | the loop's reminders and keys are those of the check over the page's list |
| SchedulePage.FailedAddRestores | src/components/SchedulePage.tsx:242-303 | a failed add of a new id leaves the same schedules, as a multiset, as before |
| SchedulePage.DeleteRemovesOnlyThatId | src/components/SchedulePage.tsx:308 | removal leaves no schedule with the id and every other schedule with its multiplicity |
| MappingModal.MotorNumbersAreOneToEight | src/components/MappingModal.tsx:59 | the offered motors are 1 to 8 in order |
| MappingModal.Options | src/components/MappingModal.tsx:382-393 | one option per motor, disabled iff another supplement holds it |
| MappingModal.SubmitVerdict | src/components/MappingModal.tsx:136-162 | missing input iff no supplement or no motor; motor taken iff another supplement holds it; otherwise sends that motor |
| MappingModal.MirroredMotor | src/components/MappingModal.tsx:127-133 | shown iff the selected supplement has a truthy motor, and then it parses back as that motor |
| MappingModal.OptionsAgreeWithSubmit | src/components/MappingModal.tsx:148-162 | a disabled option is one submit refuses; an enabled one is sent as its motor |
| MappingModal.ResaveOwnMotor | src/components/MappingModal.tsx:150-152 | re-saving a supplement's own motor is not a conflict |
| MappingModal.SaveKeepsOneSupplementPerMotor | src/components/MappingModal.tsx:150-186 | a save that passes the conflict check keeps one supplement per motor |
| MappingModal.Dialog.constructor | src/components/MappingModal.tsx:61-125 | opening clears the selection and loads the table, `{}` on failure |
| MappingModal.Dialog.SyncSelectedMotor | src/components/MappingModal.tsx:127-133 | the motor select mirrors the mapping of the selected supplement |
| MappingModal.Dialog.SelectSupplement | src/components/MappingModal.tsx:127-133 | selecting a supplement moves the motor select to its mapped motor |
| MappingModal.Dialog.SelectMotor | src/components/MappingModal.tsx:382-393 | choosing option k holds that option's value |
| MappingModal.Dialog.Submit | src/components/MappingModal.tsx:136-203 | only a sent and accepted save changes the table, only at the selected key; one supplement per motor is preserved |
| MappingModal.Dialog.Delete | src/components/MappingModal.tsx:205-259 | nothing selected, then not mapped, refuse; success removes exactly that key and clears the selection; failure changes nothing |
| MappingModal.Dialog.Reset | src/components/MappingModal.tsx:261-293 | success empties the table and the selection; failure changes nothing |
| MappingPage.ParseMotor | src/app/mapping/page.tsx:90 | accepted iff the field is non-empty and `parseInt` reads it, and then that number |
| MappingPage.EditFieldRoundTrip | src/app/mapping/page.tsx:173-177 | the edit field `String(motor)` reads back as motor |
| MappingPage.PageAgreesWithServer | src/app/mapping/page.tsx:108-162 | the page's table after a save or delete is the one the server writes for the same request |
| MappingPage.Page.constructor | src/app/mapping/page.tsx:21-30 | empty table and fields, not editing |
| MappingPage.Page.FetchMappings | src/app/mapping/page.tsx:32-53 | success replaces the table; failure keeps it |
| MappingPage.Page.FetchSupplements | src/app/mapping/page.tsx:55-80 | success stores the list and preselects its first id when non-empty; failure keeps both |
| MappingPage.Page.EditClick | src/app/mapping/page.tsx:173-177 | editing that key, the field reading back as its motor |
| MappingPage.Page.Save | src/app/mapping/page.tsx:88-146 | edit: valid motor and accepted POST set the key and end editing; add: needs a selection, a valid motor and an unmapped key, then adds it and resets the form; refusals and failures change nothing |
| MappingPage.Page.SaveEdit | src/app/mapping/page.tsx:89-114 | given the parsed edit field: an unparsable one or a failed POST changes nothing; otherwise the edited key takes the parsed motor and editing ends |
| MappingPage.Page.SaveNew | src/app/mapping/page.tsx:116-145 | given the parsed motor field: refuses a missing selection or motor and an already mapped supplement; a failed POST changes nothing; a success adds the entry, preselects the first supplement and clears the motor field |
| MappingPage.Page.DeleteMapping | src/app/mapping/page.tsx:148-171 | cancelled or failed changes nothing; success removes exactly that key and ends editing of it |
| ScheduleModal.ScheduleId | src/components/ScheduleModal.tsx:78 | the clock reading, the day, the hyphenated name and the random suffix joined by hyphens; its lack of white space is stated by ScheduleModal.IdWithoutSpace |
| ScheduleModal.NewSchedule | src/components/ScheduleModal.tsx:77-84 | the schedule emitted for one day; one per chosen day with shared fields is stated by ScheduleModal.EmittedPerDay |
| ScheduleModal.IdWithoutSpace | src/components/ScheduleModal.tsx:78 | the generated id has no white space iff the day and the random suffix have none, whatever the name |
| ScheduleModal.WeekdaysWithoutSpace | src/components/ScheduleModal.tsx:106-109 | the weekday names have no white space |
| ScheduleModal.Validate | src/components/ScheduleModal.tsx:56-71 | the first failing check in order supplement, days, time, quantity; none iff all hold |
| ScheduleModal.Toggle | src/components/ScheduleModal.tsx:96-104 | the day is chosen iff it was not; other days unchanged |
| ScheduleModal.ToggleKeepsDistinct | src/components/ScheduleModal.tsx:96-104 | toggling keeps the chosen days free of repeats |
| ScheduleModal.ToggleTwice | src/components/ScheduleModal.tsx:96-104 | toggling twice gives the same choice, the very same list for a day that was absent |
| ScheduleModal.ClampQuantity | src/components/ScheduleModal.tsx:162 | at least 1; the parsed count when that is at least 1, else 1 |
| ScheduleModal.Dialog.constructor | src/components/ScheduleModal.tsx:22-26 | empty form, quantity 1 |
| ScheduleModal.Dialog.ToggleDay | src/components/ScheduleModal.tsx:96-104 | the chosen days are toggled and stay distinct |
| ScheduleModal.Dialog.SetQuantity | src/components/ScheduleModal.tsx:162 | the count is the clamped input |
| ScheduleModal.Dialog.Submit | src/components/ScheduleModal.tsx:51-94 | a rejected form stays as it is; an accepted one emits one schedule per chosen day in order and resets |
| ScheduleModal.EmitSchedules | src/components/ScheduleModal.tsx:76-86 | one schedule per chosen day, in the order the days were chosen, each built from that day and its own clock and random draw |
| ScheduleModal.EmittedPerDay | src/components/ScheduleModal.tsx:76-86 | one submission's schedules are on distinct days, one per chosen day, sharing supplement, time and count |
| SupplementsAdmin.Request | src/app/supplements-admin/page.tsx:63 | the trimmed id and name, no quantity |
| SupplementsAdmin.FormRequestHasFields | src/app/supplements-admin/page.tsx:52-64 | a filled form never meets the server's 400 and is created iff neither key is taken |
| SupplementsAdmin.AdminPage.constructor | src/app/supplements-admin/page.tsx:19-21 | empty list and form |
| SupplementsAdmin.AdminPage.FetchSupplements | src/app/supplements-admin/page.tsx:27-44 | success replaces the list; failure keeps it |
| SupplementsAdmin.AdminPage.AddSupplement | src/app/supplements-admin/page.tsx:50-79 | blank fields send nothing; otherwise the trimmed id and name are sent, and exactly when the server creates the record and stores it the page appends that same record and clears the form; any other answer changes nothing |
| SupplementsAdmin.AdminPage.DeleteSupplement | src/app/supplements-admin/page.tsx:81-102 | confirmed and accepted removes every entry with the id; otherwise nothing changes |
| SupplementsAdmin.DeleteTracksServer | src/app/supplements-admin/page.tsx:96 | the page's filtered list equals the catalogue the server keeps |

## Left out

- Reading and writing files and JSON (de)serialisation: a file is one of four states, and whether a write succeeds is an input. Creating the data directory is not modelled.
- A file whose JSON is of the wrong shape (an object where a list is expected, or the reverse) is not modelled; it reads as a value of the expected type.
- The dose-command route reads its files through a `default_api.read_file` helper that is not part of this model; its schedules and mapping records arrive as parameters, and its 500 path (a read or parse failure) is left out.
- Numbers are unbounded integers. Fractions, exponents, `Infinity` and double-precision rounding are not modelled; `Number` of a non-integer text is treated as NaN. `Number.isInteger` of a pill count is always true here.
- Text.ParseInt: `parseInt` without a radix (the mapping page and the mapping dialog) also reads a `0x` prefix as hexadecimal; the model always reads decimal.
- Text.ToLower: case folding is ASCII only, which is all the comparison against English day names needs.
- Lookups on the client (`mappingData[name]`, `mappings[key] !== undefined`, `name in currentMapping`) see own keys only; inherited `Object.prototype` properties are not modelled there. The server-side `in` test is the subject of the finding below.
- A POST body that is a JSON array is not modelled as an object with index keys.
- DispenserMapping.Post: the body's entries are integer motor numbers; the route merges entries of any JSON type into the file, which the model does not represent.
- DispenserMapping.Delete: applies the corrected own-key test of the finding below, so a name such as `toString` that the code finds through `in` on `Object.prototype` answers 404 here where the code answers 200 and rewrites the file; the code as written is DispenserMapping.PlanDeleteAsWritten.
- `lastExecutedAt` is carried in `Records.Schedule` but no operation of the core reads or writes it.
- The LED file's `lastUpdated` clock reading, the device's `currentState` report (only logged), and the schedule page's LED buttons and LED status fetch are left out.
- SchedulePage.Page.CheckSchedules: the mapping is fetched lazily once per check and is a parameter here (`{}` when the fetch fails); the dispense request itself is a commented-out TODO in the source and is not modelled; the toasts are not modelled.
- SchedulePage.Page.AddSchedule: the two revert calls on failure both filter the same id; the model applies the filter once, which gives the same list.
- Interleaving of asynchronous state updates is not modelled: each handler runs to completion before the next.
- MappingModal.SubmitVerdict: a motor text that `parseInt` cannot read is treated as missing input; the dialog only ever holds values produced by `String(n)` (MappingModal.OptionsAgreeWithSubmit, MappingModal.MirroredMotor), which always parse.
- The mapping dialog's supplement list (from local storage, with three built-in defaults) is not modelled; only the selected name is.
- Inputs whose `onChange` only copies the typed value into state are assignments to the class fields; only handlers with logic are methods.
- `Date.now()` and `Math.random()` in the schedule id are the `ScheduleModal.Token` inputs.
- The supplements route reads the catalogue twice during DELETE; the model reads it once, which is the same while nothing else writes it.
- Toasts, alerts, `confirm` dialogs (an input), loading flags, routing and rendering other than the day grouping are not modelled.

## Findings

| source | as written | input that shows it | evidently intended | confidence | as-written member | corrected member |
|---|---|---|---|---|---|---|
| src/app/api/dispenser-mapping/route.ts:92-99 | the existence test is `supplementName in existingMapping`, which is also true for properties inherited from `Object.prototype` | `DELETE /api/dispenser-mapping?supplementName=toString` on an empty mapping answers 200 "deleted" and rewrites the file, though no such entry exists | a name that is not an own key of the mapping answers 404 (`hasOwnProperty`, as the supplements route uses) | not executed | DispenserMapping.InheritedNameIsNotNotFound | DispenserMapping.PlanDelete |
