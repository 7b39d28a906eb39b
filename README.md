# barbaraFront client logic, modelled in Dafny

barbaraFront is a React single-page client for a personal organiser. It has:

- a credential vault, whose passwords are encrypted under an RSA key held in the browser;
- a finance dashboard with monthly statistics and credit purchases split into installments;
- lists of work tasks, health exams and reminders, a workout plan and notes;
- a WhatsApp link panel, a light/dark theme, a profile form and a city search;
- a few pure helpers: a phone mask, a reminder-time calculator, the breadcrumb label and the login form's validator.

This project models the client-side state handling of those pages and the helpers they call. Each page is modelled as a Dafny `class`:

- each field is a piece of React state;
- each event handler is a method whose `modifies` clause names the page;
- the outcome of every network or WebCrypto call is a parameter of the handler: `None` for a rejected request, otherwise the server's reply.

The list updates, the aggregations and the request bodies the handlers build are pure functions. Lemmas relate them to an independent description or to their inverse.

Shared modules model the JavaScript built-ins the pages rely on:

- `JsText`: `trim`, `toLowerCase`, `toUpperCase`, `includes`, `startsWith` and `substring`;
- `JsDate`: a UTC proleptic Gregorian calendar with the normalisation `setDate`/`setMonth` perform, and `toISOString` with the extended years of section 21.4.1.32 of ECMA-262 and its `RangeError`;
- `Base64`: RFC 4648 section 4, encoded the way `btoa` does and decoded with the whitespace-forgiving `atob`;
- `Lists`: filter, update-where and find.

| file | module | source |
|---|---|---|
| wrappers.dfy | Wrappers | `Option` and `Result` |
| lists.dfy | Lists | `Array.prototype.filter`, `map`, `find`, `findIndex` |
| js_text.dfy | JsText | string built-ins |
| js_date.dfy | JsDate | `Date` built-ins |
| base64.dfy | Base64 | `btoa` and `atob` |
| reminder.dfy | Reminder | src/lib/utils.ts |
| vault.dfy | Vault | src/_root/main/Security.tsx |
| finance.dfy | Finance | src/_root/main/Dashboard.tsx |
| tasks.dfy | Tasks | src/_root/main/Tasks.tsx |
| health.dfy | Health | src/_root/main/HealthModule.tsx |
| workout.dfy | Workout | src/_root/main/WorkoutManager.tsx |
| notes.dfy | Notes | src/_root/main/NoteEditor.tsx |
| settings.dfy | Settings | src/_root/main/Settings.tsx |
| profile.dfy | Profile | src/_root/main/Profile.tsx |
| cities.dfy | CitySearch | src/components/shared/citiesSearch.tsx |
| layout.dfy | Layout | src/_root/RootLayout.tsx |
| theme.dfy | Theme | src/validation/ThemeContext.tsx |
| phone.dfy | Phone | src/modules/formatPhone.ts |
| login.dfy | LoginValidation | src/validation/index.ts |

## Model

| member | source | states |
|---|---|---|
| Lists.Filter | src/_root/main/Tasks.tsx:61-63 | the result holds exactly the elements of the input that pass the test, and is no longer than the input |
| Lists.FilterAppend | src/_root/main/Tasks.tsx:61-63 | filtering a concatenation is concatenating the filtered parts, so the input order survives |
| Lists.FilterKeepsAll | src/_root/main/Tasks.tsx:61-63 | a list whose every element passes is kept whole |
| Lists.FilterPartition | src/_root/main/Tasks.tsx:133-137 | a test and its negation split a list: the two results together are a permutation of it |
| Lists.UpdateWhere | src/_root/main/Tasks.tsx:104-110 | `map` with a conditional: the same length, picked elements changed, the others unchanged in place |
| Lists.FindIndex | src/_root/main/WorkoutManager.tsx:101-104 | the first index whose element passes, or none when no element passes |
| Lists.Find | src/_root/main/WorkoutManager.tsx:101-104 | `find`: none iff no element passes; otherwise the first element that passes |
| JsText.TrimStart | src/components/shared/citiesSearch.tsx:57 | drops exactly the leading white space: the result is a suffix that starts with a non-space |
| JsText.TrimEnd | src/components/shared/citiesSearch.tsx:57 | drops exactly the trailing white space: the result is a prefix that ends with a non-space |
| JsText.TrimIsInnerSlice | src/components/shared/citiesSearch.tsx:57 | `trim` keeps a contiguous slice with only white space outside it, beginning and ending with a non-space |
| JsText.TrimEmptyIff | src/components/shared/citiesSearch.tsx:57 | the trimmed text is empty iff the text is all white space |
| JsText.TrimKeepsUnpadded | src/_root/main/Security.tsx:130 | text with no white space at either end is unchanged by `trim` |
| JsText.LowerChar | src/components/shared/citiesSearch.tsx:62 | a Latin-1 capital (`A`–`Z`, `À`–`Þ` but `×`) moves up 32 code points to its small letter; every other character is unchanged |
| JsText.UpperChar | src/_root/main/Dashboard.tsx:180 | a Latin-1 small letter (`a`–`z`, `à`–`þ` but `÷`) moves down 32 code points to its Latin-1 capital, `ÿ` becomes `Ÿ` and `µ` the Greek capital mu; every other character is unchanged |
| JsText.UpperText | src/_root/main/Dashboard.tsx:180 | `ß` upper-cases to the two letters "SS", every other character to its `UpperChar` |
| JsText.ToLower | src/components/shared/citiesSearch.tsx:62 | the same length, lowered character by character |
| JsText.ToUpper | src/_root/main/Dashboard.tsx:180 | never shorter than the text; without `ß`, the same length, raised character by character |
| JsText.LowerUndoesUpper | src/_root/main/Dashboard.tsx:180 | lower-casing the upper-cased text of Latin-1 small letters gives it back |
| JsText.Includes | src/components/shared/citiesSearch.tsx:62 | true iff some position of the text begins a copy of the searched text |
| JsText.Substring | src/_root/main/HealthModule.tsx:206-207 | within bounds, the slice between the two indices; never longer than the text |
| Base64.SextetRoundTrip | src/_root/main/Security.tsx:82-83 | the alphabet's character for a sextet reads back to that sextet |
| Base64.TripleRoundTrip | src/_root/main/Security.tsx:82-83 | a group of three bytes encodes to four characters that decode to the same three bytes |
| Base64.EncodeLength | src/_root/main/Security.tsx:82-83 | the padded text is 4·⌈n/3⌉ characters long |
| Base64.Encode | src/_root/main/Security.tsx:82-83 | the padded Base64 text of section 4 of RFC 4648; `Base64.EncodeLength`, `Base64.EncodeAlphabet` and `Base64.DecodeEncode` state its length, its characters and that it decodes back |
| Base64.DecodeEncodeUnpadded | src/_root/main/Security.tsx:82-83 | decoding the unpadded encoding gives the bytes back |
| Base64.StripEncodePadding | src/_root/main/Security.tsx:130 | removing the padding of an encoding gives the unpadded encoding |
| Base64.EncodeAlphabet | src/_root/main/Security.tsx:82-83 | an encoding uses only the 64 characters of the alphabet and `=` |
| Base64.EncodeHasNoWhitespace | src/_root/main/Security.tsx:130 | an encoding holds no ASCII white space, so `atob` drops nothing from it |
| Base64.Decode | src/_root/main/Security.tsx:130 | the forgiving-base64 decode `atob` performs: white space dropped, padding stripped, failure on a bad length or character; `Base64.DecodeEncode` states that it inverts `Encode`, and `Vault.ReadBase64IsDecode` that it is what the vault reads |
| Base64.DecodeEncode | src/_root/main/Security.tsx:130-134 | decoding the encoding of any bytes succeeds and gives those bytes back |
| Base64.Latin1 | src/_root/main/Security.tsx:82 | `String.fromCharCode(...bytes)`: one character per byte, with the byte's code |
| Base64.Latin1Bytes | src/_root/main/Security.tsx:82-83 | the bytes a Latin-1 string stands for, one per character |
| Base64.Btoa | src/_root/main/Security.tsx:82-83 | `btoa` succeeds iff every character is below 256 |
| Base64.Atob | src/_root/main/Security.tsx:130 | what `atob` yields is Latin-1 text |
| Base64.BtoaLatin1 | src/_root/main/Security.tsx:82-83 | `btoa(String.fromCharCode(...bytes))` is the RFC 4648 encoding of the bytes |
| Base64.AtobBtoa | src/_root/main/Security.tsx:130 | `atob` of an encoding gives the Latin-1 string of the encoded bytes |
| JsDate.DaysInMonth | src/lib/utils.ts:18 | every month has 28 to 31 days |
| JsDate.MonthStep | src/lib/utils.ts:30 | the first day of the next month comes one month-length after the first day of this one |
| JsDate.NormalizeDayNumber | src/lib/utils.ts:18 | an out-of-range day of the month rolls into the neighbouring months: the resulting date is valid and is the same day count from the first of the month |
| JsDate.Clip | src/lib/utils.ts:37 | a date exists iff its time value is within ±8.64e15 ms, and then it is the date itself |
| JsDate.SetDate | src/lib/utils.ts:18 | `setDate` yields a valid date or the invalid date |
| JsDate.SetMonth | src/_root/main/Dashboard.tsx:171-172 | `setMonth` yields a valid date or the invalid date |
| JsDate.ShiftBackDays | src/lib/utils.ts:18-27 | `setDate(getDate() - k)` moves the time value back by exactly k days, keeping the time of day, and is invalid exactly when that falls outside the time range |
| JsDate.ShiftMonths | src/_root/main/Dashboard.tsx:171-172 | `setMonth(getMonth() + k)` gives the same day and time k calendar months on, day overflow rolling forward |
| JsDate.ShiftMonthsInRange | src/_root/main/Dashboard.tsx:171-172 | that shift is invalid exactly when its time value falls outside the time range |
| JsDate.DigitsRoundTrip | src/lib/utils.ts:37 | a number written with w zero-padded digits reads back to the number |
| JsDate.YearText | src/lib/utils.ts:37 | years 0-9999 take four characters; the others take a sign and six digits |
| JsDate.IsoText | src/lib/utils.ts:37 | `toISOString` text is 24 characters long, or 27 with an extended year |
| JsDate.ToISOString | src/lib/utils.ts:37 | `toISOString` gives text iff the date is valid, and throws `RangeError` otherwise |
| JsDate.ParseIso | src/lib/utils.ts:37 | whatever is read back from ISO text is a valid date |
| JsDate.ClockRoundTrip | src/lib/utils.ts:37 | the "Thh:mm:ss.sssZ" text reads back to its fields |
| JsDate.TimeRoundTrip | src/lib/utils.ts:37 | the time-of-day text reads back to the milliseconds of the day |
| JsDate.TailRoundTrip | src/lib/utils.ts:37 | the text after the year reads back to the month, the day and the time |
| JsDate.YearRoundTrip | src/lib/utils.ts:37 | the year text reads back to the year |
| JsDate.IsoRoundTrip | src/lib/utils.ts:37 | the ISO text of a date reads back to the same date: `toISOString` loses nothing |
| Reminder.OffsetOf | src/lib/utils.ts:16-34 | an offset exists exactly for "3days", "1day", "1week" and "1month" |
| Reminder.Shift | src/lib/utils.ts:16-31 | shifting keeps a date valid or makes it invalid; an invalid date stays invalid |
| Reminder.CalculateReminderTime | src/lib/utils.ts:8-38 | undefined iff the date or the type is empty or the type is not one of the four keys; a `RangeError` iff the shifted date is invalid; otherwise the ISO text of the shifted date |
| Reminder.FormDefaultsGiveNoReminder | src/_root/main/Tasks.tsx:53 | the types "WORK" and "daily" give no reminder time, whatever the date |
| Reminder.DaysBeforeEvent | src/lib/utils.ts:17-27 | "3days", "1day" and "1week" give the ISO text of a date exactly 3, 1 or 7 days earlier at the same time of day, or a `RangeError` when that is outside the time range |
| Reminder.MonthBeforeEvent | src/lib/utils.ts:29-31 | "1month" gives the ISO text of the same day and time one calendar month earlier, day overflow rolling forward, or a `RangeError` |
| Reminder.PreviousMonth | src/lib/utils.ts:30 | `setMonth(getMonth() - 1)` lands on that instant, or is invalid exactly when it is out of range |
| Vault.ToUint8 | src/_root/main/Security.tsx:131-134 | a character stored into a `Uint8Array` keeps its code when it is below 256 |
| Vault.CharCodes | src/_root/main/Security.tsx:131-134 | byte i is the code of character i |
| Vault.CharCodesOfLatin1 | src/_root/main/Security.tsx:131-134 | the character codes of the Latin-1 string of bytes are those bytes |
| Vault.ReadBase64 | src/_root/main/Security.tsx:130-134 | `atob`, then the character codes as bytes, failing where `atob` throws; `Vault.ReadBase64IsDecode` states that it is `Base64.Decode` and `Vault.ReadBase64Encode` that it reads back what the vault writes |
| Vault.ReadBase64IsDecode | src/_root/main/Security.tsx:130-134 | `atob` followed by the char-code loop is exactly `Base64.Decode`, the forgiving-base64 decode: it rejects the same texts and reads the same bytes |
| Vault.ReadBase64Encode | src/_root/main/Security.tsx:121 | Base64 that the vault writes reads back to the same bytes (also line 160) |
| Vault.KeyFileRoundTrip | src/_root/main/Security.tsx:130-134 | the downloaded key file, trimmed and decoded, gives back the exported private key (also lines 82-83) |
| Vault.ImportedKey | src/_root/main/Security.tsx:124-142 | no key without a file or when the trimmed text does not decode, otherwise what the PKCS #8 import gives; `Vault.KeyFileImports` states that the downloaded key file imports the exported key |
| Vault.KeyFileImports | src/_root/main/Security.tsx:130-142 | importing the downloaded key file imports the exported key |
| Vault.ExampleItems | src/_root/main/Security.tsx:89-98 | seeding succeeds iff every template's password encrypts; then it gives one item per template, in order, with the template's site and login and the Base64 cipher text |
| Vault.ExampleItemsOf | src/_root/main/Security.tsx:89-98 | items built one by one with `encryptWithKey` are exactly the seeded list |
| Vault.EncryptWithKey | src/_root/main/Security.tsx:114-122 | the encryption of the text, written as Base64, failing where the encryption rejects; `Vault.RevealShowsSavedPassword` states that what it writes reveals as typed |
| Vault.RevealStep | src/_root/main/Security.tsx:185-206 | a revealed entry with non-empty text is hidden; otherwise a successful decode and decrypt reveals the plain text and a failure changes nothing; no other entry changes |
| Vault.RemoveItem | src/_root/main/Security.tsx:209-213 | exactly the items without that id remain |
| Vault.RevealDecoded | src/_root/main/Security.tsx:185-206 | under a matching key pair, a click shows the password and the next click hides it, except that an empty password is never counted as shown and is decrypted again |
| Vault.RevealShowsSavedPassword | src/_root/main/Security.tsx:185-206 | the same for a cipher text that `encryptWithKey` wrote (also line 121) |
| Vault.EntryCipherOf | src/_root/main/Security.tsx:152-169 | a cipher text is only produced for a filled form with a stored public key, and it decodes to the public key's encryption of the password |
| Vault.VaultPage.constructor | src/_root/main/Security.tsx:58-63 | the list is the stored list, or empty; the page starts locked, with nothing revealed and an empty form |
| Vault.VaultPage.FillCharCodes | src/_root/main/Security.tsx:131-134 | the loop fills a new array with the character codes of the text |
| Vault.VaultPage.GenerateKeys | src/_root/main/Security.tsx:67-112 | the stored public key is the Base64 of the public key in every case; a key file is downloaded iff every example encrypts, and it is the Base64 of the private key; then the list and the stored list become the example items, otherwise they stay; nothing else changes |
| Vault.VaultPage.StoreKeys | src/_root/main/Security.tsx:100-101 | the public key text is stored; when every example encrypted the examples replace the list and are stored, otherwise the list stays; nothing else changes (also line 86) |
| Vault.VaultPage.EncryptExamples | src/_root/main/Security.tsx:89-98 | the loop computes the seeded list, or fails when one encryption fails |
| Vault.VaultPage.ReadKeyFile | src/_root/main/Security.tsx:130-134 | the file's text trimmed and decoded into bytes |
| Vault.VaultPage.ImportKeyFile | src/_root/main/Security.tsx:124-142 | no file, a bad text or a failed import gives no key; otherwise the imported key |
| Vault.VaultPage.KeyLoaded | src/_root/main/Security.tsx:144-148 | a key unlocks the vault and is stored in the same step; a failed import changes nothing; unlocked implies a key is held |
| Vault.VaultPage.SaveNewEntry | src/_root/main/Security.tsx:151-183 | nothing changes with an empty field, without a stored public key or when a crypto step fails; otherwise the entry with the encrypted password goes in front, the stored list follows and the form is cleared and closed |
| Vault.VaultPage.StoreEntry | src/_root/main/Security.tsx:170-182 | with a cipher text, exactly one item {site, login, cipher} goes in front of the others, the stored list follows and the form is cleared and closed; without one nothing changes |
| Vault.VaultPage.DecryptPass | src/_root/main/Security.tsx:185-207 | without a private key nothing changes; otherwise the reveal map takes one reveal step |
| Vault.VaultPage.DeleteItem | src/_root/main/Security.tsx:209-213 | the items with that id go, and the stored list equals the list in memory |
| Finance.FromServer | src/_root/main/Dashboard.tsx:68-76 | the loaded record keeps every field and lower-cases the type |
| Finance.FromServerAll | src/_root/main/Dashboard.tsx:68-76 | the load maps every record, in order |
| Finance.PostedKindReadsBack | src/_root/main/Dashboard.tsx:72 | a lower-case type posted in upper case reads back as posted (also line 180) |
| Finance.MonthTransactions | src/_root/main/Dashboard.tsx:103-111 | exactly the transactions whose date falls in the shown month and year |
| Finance.OfKind | src/_root/main/Dashboard.tsx:114-122 | exactly the transactions of one type, so `&& "credit"` adds no credit rows to the expenses |
| Finance.Total | src/_root/main/Dashboard.tsx:113-122 | the sum of one type's amounts, the `filter(...).reduce` of the three sums; `Finance.CatMapTotal` states that the spending per category adds up to the expense and credit totals |
| Finance.Add | src/_root/main/Dashboard.tsx:127-137 | `record[k] = (record[k] \|\| 0) + a`: an existing key keeps its place and gains a; a new key is appended with a; every other lookup is unchanged |
| Finance.AddKeepsUnique | src/_root/main/Dashboard.tsx:127-137 | adding keeps the keys distinct |
| Finance.AddSum | src/_root/main/Dashboard.tsx:127-137 | adding a raises the sum of the values by a |
| Finance.Totals | src/_root/main/Dashboard.tsx:128-144 | the `forEach` that adds each row's amount under its category, row by row; `Finance.TotalsLookup`, `Finance.TotalsSum` and `Finance.TotalsKeys` state its values, their sum and its keys |
| Finance.TotalsLookup | src/_root/main/Dashboard.tsx:125-144 | after the `forEach`, a category's value is what it held plus its rows' amounts |
| Finance.TotalsSum | src/_root/main/Dashboard.tsx:125-144 | after the `forEach`, the values add up to what they held plus all the amounts |
| Finance.HasCategoryIff | src/_root/main/Dashboard.tsx:125-144 | the recursive category test holds iff some row has the category |
| Finance.TotalsKeys | src/_root/main/Dashboard.tsx:125-144 | the keys stay distinct, and a category is a key iff it was one or some row has it |
| Finance.CatMap | src/_root/main/Dashboard.tsx:128-138 | `catMap`: the expense rows added first, then the credit rows; `Finance.CatMapTotal` and `Finance.CatMapCategory` state its sum and its value per category |
| Finance.CatInc | src/_root/main/Dashboard.tsx:140-144 | `catInc`: the income rows added per category; `Finance.CatIncCategory` states its value per category |
| Finance.CatMapTotal | src/_root/main/Dashboard.tsx:125-138 | the spending per category adds up to the expenses plus the credit purchases |
| Finance.CatMapCategory | src/_root/main/Dashboard.tsx:125-138 | a category's spending sums its expense and credit rows, and it is a key iff such a row exists |
| Finance.CatIncCategory | src/_root/main/Dashboard.tsx:140-144 | a category's income sums its income rows, the keys are distinct, and a category is a key iff some income row has it |
| Finance.TopCategory | src/_root/main/Dashboard.tsx:146 | absent iff there are no categories; otherwise the first entry with the largest value |
| Finance.SavingsRate | src/_root/main/Dashboard.tsx:123 | `(income - expense) / income * 100` with income, 0 without; `Finance.SavingsRateRange` states its range |
| Finance.SavingsRateRange | src/_root/main/Dashboard.tsx:123 | with income: 100% without expenses, 0% when they equal the income, negative above it, and never above 100% for non-negative expenses |
| Finance.ZeroProduct | src/_root/main/Dashboard.tsx:123 | a zero product with a positive factor has a zero other factor |
| Finance.AddAll | src/_root/main/Dashboard.tsx:127-137 | the `forEach` loop computes the category totals |
| Finance.ComputeStats | src/_root/main/Dashboard.tsx:113-158 | income, expense and credit are the sums per type; the balance is income − expense − credit; the savings rate, the two category maps and the top category follow from them |
| Finance.LeadingDigits | src/_root/main/Dashboard.tsx:165 | the longest prefix of decimal digits |
| Finance.IndexOf | src/_root/main/Dashboard.tsx:165 | the first index of the character, or −1 exactly when it does not occur |
| Finance.RemoveFirstX | src/_root/main/Dashboard.tsx:165 | `replace("x", "")` drops the first x only, and changes nothing without one |
| Finance.ParseInt | src/_root/main/Dashboard.tsx:165 | `parseInt` of decimal text: leading white space and a sign skipped, then the leading digits, NaN without any; `Finance.ParseDigitsText` and `Finance.InstallmentChoices` state what it reads |
| Finance.InstallmentCount | src/_root/main/Dashboard.tsx:165 | `parseInt(...) \|\| 1` is never 0 |
| Finance.ParseDigit | src/_root/main/Dashboard.tsx:165 | a single digit parses to its value |
| Finance.ParseDigitsText | src/_root/main/Dashboard.tsx:165 | a non-empty text of decimal digits parses to the number it denotes |
| Finance.InstallmentChoices | src/_root/main/Dashboard.tsx:165 | the choices "1x" to "5x" give 1 to 5 installments |
| Finance.DecimalText | src/_root/main/Dashboard.tsx:175-178 | a number's decimal text is digits without a leading zero |
| Finance.DecimalTextValue | src/_root/main/Dashboard.tsx:175-178 | that text reads back to the number |
| Finance.InstallmentDates | src/_root/main/Dashboard.tsx:171-172 | installment i's date: the purchase moment with `setMonth(getMonth() + i)`, as `toISOString` writes it, none where it throws; `Finance.InstallmentDate` states which moment that is and when it throws (also line 182) |
| Finance.InstallmentDate | src/_root/main/Dashboard.tsx:171-172 | installment i is dated i calendar months after the purchase, or `toISOString` throws exactly when that is out of range (also line 182) |
| Finance.PlanOf | src/_root/main/Dashboard.tsx:164-168 | a credit purchase has n iterations, any other type one |
| Finance.InstallmentPayload | src/_root/main/Dashboard.tsx:174-183 | iteration i's record: the description with " (i+1/n)" when there are several iterations, the plan's amount, type and category, and the date; `Finance.PrefixFromRecord` states that the loop posts it as record i |
| Finance.PrefixFromRecords | src/_root/main/Dashboard.tsx:170-192 | the records built from iteration i on are those of consecutive iterations with their dates, ending at the last iteration or at the first date that throws |
| Finance.PrefixFromEnds | src/_root/main/Dashboard.tsx:170-192 | the records from iteration i on stop at the last iteration or right before the first date that throws |
| Finance.PrefixFromRecord | src/_root/main/Dashboard.tsx:170-190 | record j from iteration i on is the payload of iteration i + j, built with that iteration's date |
| Finance.EqualAmountsSum | src/_root/main/Dashboard.tsx:170-183 | k records of equal amount x add up to k·x |
| Finance.InstallmentsAddUp | src/_root/main/Dashboard.tsx:164-183 | when all n installments of a credit purchase are posted, their amounts add up to the purchase amount |
| Finance.EvenSplitSum | src/_root/main/Dashboard.tsx:166 | n shares of base/n add up to base |
| Finance.PostInstallments | src/_root/main/Dashboard.tsx:170-192 | the loop posts exactly the records of the plan up to the first date that throws, and completes iff it reaches the last iteration |
| Finance.DashboardPage.constructor | src/_root/main/Dashboard.tsx:16-23 | empty list and form, type "expense", installments "1x", category "Moradia", the given date |
| Finance.DashboardPage.Loaded | src/_root/main/Dashboard.tsx:56-82 | a reply replaces the list with the mapped records; a failure keeps it |
| Finance.DashboardPage.AddTransaction | src/_root/main/Dashboard.tsx:160-198 | nothing is posted without a description or an amount; otherwise the installment records are posted, and the form is reset only when the loop completes |
| Finance.DashboardPage.ClearForm | src/_root/main/Dashboard.tsx:194-196 | the description and amount become empty and the installment choice "1x"; the list, kind, category and month stay |
| Finance.WithoutTransaction | src/_root/main/Dashboard.tsx:207 | exactly the transactions without that id remain, no more than before |
| Finance.WithoutTransactionAppend | src/_root/main/Dashboard.tsx:207 | deleting from two parts of a list deletes from each in place, so the remaining transactions keep their order |
| Finance.WithoutAbsentTransaction | src/_root/main/Dashboard.tsx:207 | deleting an id no transaction carries leaves the list as it is |
| Finance.DashboardPage.DeleteTransaction | src/_root/main/Dashboard.tsx:199-208 | whatever the request's outcome, the list becomes `WithoutTransaction` of the old list; the form and the month stay |
| Tasks.WorkTasks | src/_root/main/Tasks.tsx:61-63 | only WORK tasks are kept; a reply that is not an array gives none |
| Tasks.WorkTasksKeepOrder | src/_root/main/Tasks.tsx:61-63 | the server order survives the filter |
| Tasks.AllWorkKept | src/_root/main/Tasks.tsx:61-63 | a reply of WORK tasks only is kept whole |
| Tasks.ToggleStatus | src/_root/main/Tasks.tsx:104-110 | the same length; a task's status changes iff it has the id, and nothing else about any task changes |
| Tasks.ToggleTwice | src/_root/main/Tasks.tsx:104-110 | toggling the same id twice gives the list back |
| Tasks.WithoutId | src/_root/main/Tasks.tsx:114-122 | exactly the tasks without that id remain |
| Tasks.Visible | src/_root/main/Tasks.tsx:133-137 | no filter shows all; true shows the completed tasks and false the pending ones |
| Tasks.DoneAndPendingPartition | src/_root/main/Tasks.tsx:133-137 | the completed and the pending views split the list |
| Tasks.AddTaskRequestFields | src/_root/main/Tasks.tsx:77-88 | a request goes out iff the title is filled and the reminder time does not throw; it is a non-priority WORK task; an empty description or due date is left out, and a due date goes as the text given to `new Date`; the reminder time is the helper's |
| Tasks.AddTaskRequest | src/_root/main/Tasks.tsx:76-88 | what `handleAddTask` sends, none on an empty title or a reminder time that throws; `Tasks.AddTaskRequestFields` states when it is sent and its fields |
| Tasks.DefaultReminderTypesSendNoReminder | src/_root/main/Tasks.tsx:36-41 | with the initial or the reset reminder type, a filled title sends a task without a reminder time (also lines 53, 80, 129) |
| Tasks.TaskManager.constructor | src/_root/main/Tasks.tsx:44-53 | an empty list, no filter, an empty form with reminder type "WORK" |
| Tasks.TaskManager.FetchTasks | src/_root/main/Tasks.tsx:55-72 | a reply replaces the list with its WORK tasks; a failure keeps it; loading ends |
| Tasks.TaskManager.ResetForm | src/_root/main/Tasks.tsx:125-131 | the form is emptied, its reminder type becomes "daily", and it closes |
| Tasks.TaskManager.AddTask | src/_root/main/Tasks.tsx:77-102 | the request is the form's; a created task goes in front and the form is reset; otherwise nothing changes |
| Tasks.TaskManager.ToggleTaskStatus | src/_root/main/Tasks.tsx:104-112 | the list is toggled and nothing else changes |
| Tasks.TaskManager.DeleteTask | src/_root/main/Tasks.tsx:114-123 | the task leaves the list whatever the server answers |
| Tasks.TaskManager.SetFilter | src/_root/main/Tasks.tsx:133-137 | only the filter changes |
| Health.HealthTasks | src/_root/main/HealthModule.tsx:66-68 | only HEALTH tasks are kept; a reply that is not an array gives none |
| Health.HealthTasksKeepOrder | src/_root/main/HealthModule.tsx:66-68 | the server order survives the filter |
| Health.WithoutExam | src/_root/main/HealthModule.tsx:107-116 | exactly the exams without that id remain |
| Health.WithoutTask | src/_root/main/HealthModule.tsx:142-152 | exactly the reminders without that id remain |
| Health.ReminderRequestOf | src/_root/main/HealthModule.tsx:117-130 | nothing is posted iff the name or the date is empty; otherwise the form's name, type and date, an empty description, no priority, and the date as reminder time |
| Health.DisplayDate | src/_root/main/HealthModule.tsx:206-207 | the displayed date is built from slices of the stored text |
| Health.DisplayDateOfDay | src/_root/main/HealthModule.tsx:206-207 | a date stored as YYYY-MM-DD is shown as DD/MM/YYYY |
| Health.EmptyDateDisplay | src/_root/main/HealthModule.tsx:206-207 | an empty date is shown as "//" |
| Health.HealthPage.constructor | src/_root/main/HealthModule.tsx:33-46 | empty lists, closed modals, an empty exam form and a HEALTH reminder form (also lines 81-86) |
| Health.HealthPage.FetchExams | src/_root/main/HealthModule.tsx:49-60 | a reply replaces the exam list; a failure keeps it |
| Health.HealthPage.FetchTasks | src/_root/main/HealthModule.tsx:61-74 | a reply replaces the reminder list with its HEALTH tasks; a failure keeps it |
| Health.HealthPage.SaveExam | src/_root/main/HealthModule.tsx:88-106 | the form is posted, and whatever the answer the exam goes in front under a fresh id, the modal closes and the form is emptied |
| Health.HealthPage.DeleteExam | src/_root/main/HealthModule.tsx:107-116 | the exam leaves the list whatever the server answers |
| Health.HealthPage.CreateReminder | src/_root/main/HealthModule.tsx:117-141 | the request is the form's; without one, loading stays on and the button stays disabled; with one, the form is reset and loading ends |
| Health.HealthPage.DeleteTask | src/_root/main/HealthModule.tsx:142-152 | the reminder leaves the list whatever the server answers |
| Health.HealthPage.OnEdit | src/_root/main/HealthModule.tsx:153-156 | the exam is copied into the edit modal, which opens |
| Health.ExamPath | src/_root/main/HealthModule.tsx:160 | the path is the fixed prefix followed by the id |
| Health.ExamPathInjective | src/_root/main/HealthModule.tsx:160 | two ids with the same path are the same id |
| Health.HealthPage.EditExam | src/_root/main/HealthModule.tsx:158-166 | the exam being edited is the body of a PUT to the path of the given id, which the path gives back |
| Health.HealthPage.SubmitEditForm | src/_root/main/HealthModule.tsx:422-441 | the edit form, shown only with an exam being edited, sends that exam to its own id's path |
| Workout.OrNull | src/_root/main/WorkoutManager.tsx:111-112 | `x \|\| null`: null iff the number is 0 or NaN, otherwise the number |
| Workout.CurrentDay | src/_root/main/WorkoutManager.tsx:101-104 | none iff no day matches the selected day; otherwise the first day that does (also line 286) |
| Workout.CatalogueExercise | src/_root/main/WorkoutManager.tsx:101-104 | none iff the chosen id is not in the catalogue; otherwise an exercise with that id |
| Workout.ExerciseRequestOf | src/_root/main/WorkoutManager.tsx:94-137 | the PUT or POST `handleSaveExercise` sends, none on its early returns; `Workout.ExerciseRequestFields` states when it is sent and its fields |
| Workout.ExerciseRequestFields | src/_root/main/WorkoutManager.tsx:94-137 | no request iff there is no current day or the exercise is unknown; an edit PUTs the edited entry with its own order, a creation POSTs to the current day with order count + 1; weight and rest time are null for 0 or NaN |
| Workout.SavedDays | src/_root/main/WorkoutManager.tsx:142-191 | the `setWorkoutDays` updater of a save: an edit replaces the edited entry, a creation appends, in the current day only; `Workout.SavedDaysTouchOnlyCurrentDay` states that nothing else changes |
| Workout.SavedDaysTouchOnlyCurrentDay | src/_root/main/WorkoutManager.tsx:142-191 | only the current day changes: an edit replaces the entries with the edited id, a creation appends the new entry |
| Workout.WithoutEntry | src/_root/main/WorkoutManager.tsx:251-260 | the `setWorkoutDays` updater of a deletion: the entry leaves the current day; `Workout.WithoutEntryTouchesOnlyCurrentDay` states that nothing else changes |
| Workout.WithoutEntryTouchesOnlyCurrentDay | src/_root/main/WorkoutManager.tsx:251-260 | only the current day changes, where exactly the entries with that id disappear |
| Workout.LoadedEntries | src/_root/main/WorkoutManager.tsx:63-79 | every entry is mapped, in order |
| Workout.LoadedDays | src/_root/main/WorkoutManager.tsx:63-79 | every day is mapped, in order, with its entries mapped |
| Workout.LoadedDaysShape | src/_root/main/WorkoutManager.tsx:63-79 | a loaded day keeps its id, day and label; its entries keep every field but lose the exercise's id |
| Workout.SortedByOrderPairwise | src/_root/main/WorkoutManager.tsx:344-345 | ascending from neighbour to neighbour is ascending between any two entries |
| Workout.InsertByOrder | src/_root/main/WorkoutManager.tsx:344-345 | inserting adds exactly that entry |
| Workout.InsertByOrderSorted | src/_root/main/WorkoutManager.tsx:344-345 | inserting into a sorted list keeps it sorted |
| Workout.SortByOrder | src/_root/main/WorkoutManager.tsx:344-345 | the sort is a permutation |
| Workout.SortByOrderSorted | src/_root/main/WorkoutManager.tsx:344-345 | the entries are shown sorted by order, and none is lost or added |
| Workout.WorkoutManager.constructor | src/_root/main/WorkoutManager.tsx:86-91 | no plan, Monday selected, modals closed (also lines 39-41) |
| Workout.WorkoutManager.LoadPlan | src/_root/main/WorkoutManager.tsx:45-82 | the catalogue is stored; without plans nothing else changes; otherwise the first plan's days are loaded |
| Workout.WorkoutManager.SelectDay | src/_root/main/WorkoutManager.tsx:321 | only the selected day changes |
| Workout.WorkoutManager.OpenModal | src/_root/main/WorkoutManager.tsx:268-271 | the modal opens, editing the given entry when there is one |
| Workout.WorkoutManager.CloseModal | src/_root/main/WorkoutManager.tsx:273-276 | the modal closes and nothing is being edited |
| Workout.WorkoutManager.SaveExercise | src/_root/main/WorkoutManager.tsx:94-197 | the request is the form's; a saved entry updates the current day and closes the modal; without a request or on failure nothing changes |
| Workout.WorkoutManager.SaveDay | src/_root/main/WorkoutManager.tsx:199-235 | nothing is sent without a day; a created day is appended with no exercises and the modal closes; a failure changes nothing |
| Workout.WorkoutManager.DeleteExercise | src/_root/main/WorkoutManager.tsx:237-265 | a request is sent iff there is a current day and the user confirms; a deletion removes the entry from the current day only; otherwise nothing changes |
| Notes.NewNote | src/_root/main/NoteEditor.tsx:143-154 | a local "temp-" id, empty title and content, folder "Geral" |
| Notes.PayloadOf | src/_root/main/NoteEditor.tsx:158-167 | the body `saveCurrentNote` sends: the editor's HTML with the note's title and folder, defaulted when empty; `Notes.PayloadDefaults` states the defaults |
| Notes.PayloadDefaults | src/_root/main/NoteEditor.tsx:160-167 | the title is "Sem Título" when empty and the folder "Geral" when null or empty; given values are kept |
| Notes.RequestOf | src/_root/main/NoteEditor.tsx:172-196 | created iff the id starts with "temp-"; otherwise updated under its own id |
| Notes.NewNoteIsCreated | src/_root/main/NoteEditor.tsx:143-154 | a note from `createNewNote` is always created, never updated (also line 172) |
| Notes.ReplaceNote | src/_root/main/NoteEditor.tsx:182-196 | the note with that id is replaced by the server's; the others stay in place |
| Notes.ReplaceAbsentNote | src/_root/main/NoteEditor.tsx:182-196 | replacing an absent id changes nothing |
| Notes.NoteEditor.constructor | src/_root/main/NoteEditor.tsx:29-31 | no notes, nothing being edited |
| Notes.NoteEditor.FetchNotes | src/_root/main/NoteEditor.tsx:35-51 | a reply replaces the list; a failure keeps it |
| Notes.NoteEditor.OpenNote | src/_root/main/NoteEditor.tsx:137-141 | the note is being edited |
| Notes.NoteEditor.CreateNewNote | src/_root/main/NoteEditor.tsx:143-155 | a new local note is opened; the list is not touched |
| Notes.NoteEditor.SetTitle | src/_root/main/NoteEditor.tsx:305-307 | the title of the note being edited changes |
| Notes.NoteEditor.SaveCurrentNote | src/_root/main/NoteEditor.tsx:157-204 | nothing is sent without a note or an editor; a created note goes in front, an updated one replaces its namesake, and the editor closes; a failure changes nothing |
| Settings.SettingsPage.constructor | src/_root/main/Settings.tsx:16-23 | disconnected, no QR code, not loading, both toggles on |
| Settings.SettingsPage.CheckStatus | src/_root/main/Settings.tsx:26-41 | connected clears the QR code; otherwise a QR code in the reply is shown; an error changes nothing |
| Settings.SettingsPage.StartConnect | src/_root/main/Settings.tsx:56-59 | loading, and the status is "connecting" before the request |
| Settings.SettingsPage.FinishConnect | src/_root/main/Settings.tsx:61-77 | the reply's QR code is stored; an error returns to "disconnected"; loading ends |
| Settings.SettingsPage.StartDisconnect | src/_root/main/Settings.tsx:79-84 | nothing happens unless the user confirms |
| Settings.SettingsPage.FinishDisconnect | src/_root/main/Settings.tsx:86-103 | success disconnects and clears the QR code; failure keeps both; loading ends |
| Settings.SettingsPage.CancelQr | src/_root/main/Settings.tsx:239 | only the QR code is cleared |
| Settings.SettingsPage.ToggleNotifications | src/_root/main/Settings.tsx:168 | only the notifications flag flips |
| Settings.SettingsPage.ToggleTheme | src/_root/main/Settings.tsx:130-133 | the theme flag flips and the application theme toggles and is stored |
| Profile.BuildPayload | src/_root/main/Profile.tsx:30-44 | the body `handleUpdate` sends: the name, and the password when its trim is not empty; `Profile.PayloadFields` states which fields go and that the password is untrimmed |
| Profile.PayloadFields | src/_root/main/Profile.tsx:38-44 | the name is always sent; the password only when it is not blank, and then untrimmed |
| Profile.ProfilePage.constructor | src/_root/main/Profile.tsx:18-23 | no profile, loading, not saving, password hidden |
| Profile.ProfilePage.Sync | src/_root/main/Profile.tsx:25-28 | after every render (the effect has no dependency list), the profile becomes the shared account data and loading ends |
| Profile.ProfilePage.StartUpdate | src/_root/main/Profile.tsx:30-47 | the payload is built from the inputs and saving starts |
| Profile.ProfilePage.FinishUpdate | src/_root/main/Profile.tsx:49-63 | saving ends; success stores the reply and clears the password; failure keeps both |
| Profile.ProfilePage.FinishUpdateThenRender | src/_root/main/Profile.tsx:25-63 | after the update and the render it causes, the profile is the shared data again, not the reply; saving has ended and a success leaves the password input cleared |
| Profile.ProfilePage.ToggleShowPassword | src/_root/main/Profile.tsx:20 | only the password visibility flips |
| CitySearch.StateCode | src/components/shared/citiesSearch.tsx:32 | the nested UF code exists iff every level exists |
| CitySearch.MapCity | src/components/shared/citiesSearch.tsx:29-33 | the id and name are kept; the state is the UF code, or "N/A" when a level is missing |
| CitySearch.MapCities | src/components/shared/citiesSearch.tsx:29-33 | every city is mapped, in order |
| CitySearch.FilterByName | src/components/shared/citiesSearch.tsx:60-63 | exactly the cities whose lowered name contains the lowered query |
| CitySearch.EmptyQueryMatchesAll | src/components/shared/citiesSearch.tsx:60-63 | the empty query matches every city |
| CitySearch.Shown | src/components/shared/citiesSearch.tsx:57-63 | nothing is shown for a blank query or after a selection; otherwise the filtered cities |
| CitySearch.SelectionText | src/components/shared/citiesSearch.tsx:69 | the name, a dash and the state |
| CitySearch.CityPicker.constructor | src/components/shared/citiesSearch.tsx:21-23 | an empty query, nothing selected, no cities |
| CitySearch.CityPicker.Loaded | src/components/shared/citiesSearch.tsx:26-39 | a reply replaces the cities with the mapped ones; a failure keeps them |
| CitySearch.CityPicker.Type | src/components/shared/citiesSearch.tsx:51-54 | typing sets the query and clears the selection |
| CitySearch.CityPicker.Select | src/components/shared/citiesSearch.tsx:68-71 | selecting writes the selection text and hides the results |
| Layout.PageLabel | src/_root/RootLayout.tsx:23-39 | the four named paths map to their labels, every other path to "Dashboard", and the label is one of the five |
| Layout.Breadcrumb.constructor | src/_root/RootLayout.tsx:19 | the label starts as "Dashboard" |
| Layout.Breadcrumb.RouteChanged | src/_root/RootLayout.tsx:21-40 | the label follows the path and stays one of the five |
| Theme.Toggled | src/validation/ThemeContext.tsx:27 | the new theme is "light" or "dark" and differs from the old; light and dark swap |
| Theme.InitialTheme | src/validation/ThemeContext.tsx:15-18 | the stored theme when it is not empty, else "light" |
| Theme.RemoveToken | src/validation/ThemeContext.tsx:22 | `classList.remove`: exactly the other tokens remain (also line 32) |
| Theme.AddToken | src/validation/ThemeContext.tsx:23 | `classList.add`: the token is present, and a present token changes nothing (also line 33) |
| Theme.ThemeProvider.constructor | src/validation/ThemeContext.tsx:12 | the theme starts as "light" |
| Theme.ThemeProvider.Mount | src/validation/ThemeContext.tsx:14-24 | the theme is the stored one or "light", and the root classes hold it and not the other theme |
| Theme.ThemeProvider.Toggle | src/validation/ThemeContext.tsx:26-34 | the theme toggles, is stored under "ThemeColor", and replaces the old theme in the root classes |
| Theme.ToggleTwice | src/validation/ThemeContext.tsx:26-34 | from light or dark, two toggles restore the theme |
| Theme.UseTheme | src/validation/ThemeContext.tsx:39-43 | outside a provider it fails with the error message; inside it gives the provider |
| Phone.KeepDigits | src/modules/formatPhone.ts:2 | only digits are kept |
| Phone.Take | src/modules/formatPhone.ts:3 | `slice(0, n)` |
| Phone.Mask | src/modules/formatPhone.ts:5-19 | the mask adds 1, 3 or 4 characters by number of digits, and is at most 15 long |
| Phone.FormatPhone | src/modules/formatPhone.ts:1-21 | empty iff there are no digits; never longer than 15 |
| Phone.KeepDigitsAppend | src/modules/formatPhone.ts:2 | digits of a concatenation are the concatenated digits |
| Phone.KeepDigitsOfDigits | src/modules/formatPhone.ts:2 | digits are kept whole |
| Phone.MaskKeepsDigits | src/modules/formatPhone.ts:5-19 | the mask adds no digit and loses none |
| Phone.FormatKeepsDigits | src/modules/formatPhone.ts:2-19 | the output's digits are the first 11 digits of the input |
| Phone.FormatIdempotent | src/modules/formatPhone.ts:1-21 | formatting a formatted number changes nothing |
| LoginValidation.Utf16Length | src/validation/index.ts:2-10 | the JavaScript `length`: between the number of characters and twice it, and equal to it when no character is above U+FFFF |
| LoginValidation.Validate | src/validation/index.ts:2-10 | an e-mail shorter than 2 or longer than 50 UTF-16 code units and a key shorter than 4 each give their issue, with the schema's messages |
| LoginValidation.AcceptedIff | src/validation/index.ts:2-10 | the form is accepted iff the e-mail has 2 to 50 UTF-16 code units and the key at least 4 |
| LoginValidation.AstralEmailLongEnough | src/validation/index.ts:2-10 | one character above U+FFFF is two code units, so it meets the e-mail minimum |

## Left out

- WebCrypto: RSA-OAEP encryption and decryption (section 7.1 of RFC 8017) and PKCS#8/SPKI import are function fields of `Vault.Crypto`. Key generation and export are parameters of `Vault.VaultPage.GenerateKeys`: the new public key's handle (`publicKey`) and the exported DER bytes of both keys (`privDer`, `pubDer`). These are foreign calls. `Vault.Matching` is the only thing assumed of them.
- HTTP requests, bearer tokens, `alert`, the file download and the file reader: a request's outcome is a parameter of the handler that makes it.
- `SigninForm.tsx` and `DataContext.tsx`: they only do I/O and redirect.
- The storage of the vault and the theme: this is a slot holding the value. JSON text is not modelled.
- The polling timers of the WhatsApp panel (`setInterval`): these are timing, not sequential logic. Each poll is one `CheckStatus` call.
- `Math.random` and `Date.now`: the ids and times they produce are parameters.
- `confirm`: the user's answer is a boolean parameter.
- Time zones: dates are UTC. `new Date(text)` parsing is a parameter (`parsedDue`, `parse`, the purchase moment), and so is `parseFloat(amount)`.
- `toLocaleString`, the currency format and the month navigation of the dashboard: these are presentational.
- Floating point: amounts are exact reals. The split `base / n` and the savings rate are therefore exact.
- `parseInt`'s sign, white space and hexadecimal prefix: the installment choices are "1x" to "5x", which `Finance.InstallmentChoices` covers.
- Unicode case mapping beyond Latin-1: `toLowerCase` lowers only the Latin-1 capitals, and `toUpperCase` raises only the Latin-1 small letters (with `ÿ`, `µ` and `ß`). `toUpperCase` is applied only to the form's types "expense", "income" and "credit".
- String lengths and positions outside the login schema count characters, where JavaScript counts UTF-16 code units. The two differ only for characters above U+FFFF.
- Finance.DashboardPage.AddTransaction: the reload at the end of the handler is a separate `Loaded` call.
- Finance.DashboardPage.AddTransaction: a failed POST is caught and the loop goes on, so each post is taken to succeed.
- Finance.InstallmentPayload: it writes the installment count as `plan.iterations` where the source writes `numInstallments`. The label is only written when the count is above 1, and then the two are equal.
- The loop of `handleAddTransaction` and `toISOString` of the dates: `InstallmentDates` is passed to the loop as a function parameter.
- Workout.WorkoutManager.LoadPlan: a failed load is an unhandled rejection in the source and is not modelled.
- Workout.SortByOrder: it is an insertion sort on a value. The source's `.sort` works in place on the state's own array, and that aliasing is not modelled. Nothing is stated about the order of entries with equal `order`.
- The input `onChange` handlers other than the note title: each one sets one field.
- The Tiptap editor: its HTML is a parameter, `None` while it is not ready.
- `deleteNode` in the note editor: it reloads the whole page.
- The missing-token guard of the page fetches: this is HTTP plumbing.
- The workout URL built from a null plan id: this is HTTP plumbing.
- Health.HealthPage.EditExam: the PUT's outcome is left out, because the handler only logs a failure.
- Health.HealthPage.SubmitEditForm: the edit form's `onSubmit` does not call `preventDefault`, so the browser also submits the form itself and reloads the page. That reload is not modelled.
- Tasks.AddTaskRequest: the request's `date` holds the text given to `new Date` (the due date followed by `T00:00:00`). Its JSON form, the `toISOString` text of that local-time moment or `null` when it is invalid, depends on the time zone and is not modelled.
- The JSX, the Tailwind classes, the icons and the presentational components: these are not logic.
