# DragonToDo, modelled in Dafny

DragonToDo is a desktop todo list that keeps its items in a todo.txt file,
optionally encrypted with a password, and reminds the user of items that
carry a `reminder:` date. This project models the logic at its core and
proves what that logic promises:

- **The todo.txt codec** (`todo_scan.dfy`, `todo_parser.dfy`, `scan_tokens.dfy`,
  `line_facts.dfy`, `written_body.dfy`, `round_trip.dfy`, `file_codec.dfy`):
  - `parseLine` becomes a method that consumes the completion mark, completion
    date, priority and creation date in their fixed order, then runs the global
    `+project`, `@context`, `key:value` and `reminder:` scans as `exec` loops;
  - `serializeTodo` appends to a line accumulator;
  - `parseFile` and `serializeFile` split and join on `\n`;
  - a round trip holds for records the serializer can write back faithfully.
- **Dates and the reminder validator** (`calendar.dfy`, `time_utils.dfy`):
  - JavaScript's `Date` is a time value in milliseconds, or an invalid date;
  - the minimum lead of five minutes, `datetime-local` formatting and the
    relative-time text are stated on it;
  - the clock is a parameter `now`.
- **The reminder scheduler** (`reminders.dfy`): a class with the id-to-timer
  map in insertion order. Timers are records of what `setTimeout` was given and
  when it runs them, its delay read as a signed 32-bit number. `Tick(now)` runs
  those that are due, earliest first, appending the notifications they show.
- **The encryption envelope** (`encryption.dfy`): the `salt:iv:ciphertext`
  framing, its checks and error messages, the password generator and the
  hash check. The cipher is a value of functions passed in.
- **The window** (`app.dfy`, `todo_view.dfy`, `stable_sort.dfy`):
  - opening and saving files, with and without encryption;
  - the list updates and their effect on the scheduler;
  - the filter and the stable sort of the visible list.
- **The Redux slices** (`store.dfy`) as classes whose methods change the state.
- **The components**:
  - the filter bars (`filter_bar.dfy`, `tag_sets.dfy`);
  - the statistics panels (`stats.dfy`);
  - the add forms and the edit dialogs (`todo_form.dfy`, `todo_form_mui.dfy`,
    `form_tokens.dfy`);
  - the password dialog (`password_dialog.dfy`);
  - the list item (`todo_item.dfy`).

  Each component's state is a class, and each handler is a method on it.
- **Shared pieces**: `todo.dfy` holds the `TodoItem` record and the partial
  update merge; `strings.dfy` holds the string helpers and the UTF-16 code
  units behind `length` and the default `sort()`; `wrappers.dfy` holds
  `Option` and `Result`.

## Model

| member | source | states |
|---|---|---|
| TodoScan.RunLength | src/utils/todoParser.ts:7-8 | the `\S+` run a tag capture takes stops at the end or at whitespace |
| TodoScan.RunHasNoSpace | src/utils/todoParser.ts:7-8 | a `\S+` capture holds no whitespace |
| TodoScan.WordLength | src/utils/todoParser.ts:9 | the `\w+` key run stops at the end or at a non-word character |
| TodoScan.WordIsWordChars | src/utils/todoParser.ts:9 | a `\w+` key holds only word characters |
| TodoScan.MatchIsRun | src/utils/todoParser.ts:7-9 | a match covers the whole non-whitespace run, at least two characters; a key-value run extends past the colon |
| TodoScan.TagsOf | src/utils/todoParser.ts:7-8 | every `+name`/`@name` capture is non-empty and holds no whitespace |
| TodoScan.Strip | src/utils/todoParser.ts:81-84 | removing matches never lengthens the text |
| TodoScan.FindReminder | src/utils/todoParser.ts:10 | the reminder position is the leftmost `reminder:YYYY-MM-DDTHH:MM` match; none means no position matches |
| TodoScan.TagsConcat | src/utils/todoParser.ts:51-60 | a match never crosses whitespace, so the tag scans of pieces split at whitespace concatenate |
| TodoScan.PairsConcat | src/utils/todoParser.ts:65-67 | likewise for the key-value scan |
| TodoScan.StripConcat | src/utils/todoParser.ts:81-84 | likewise for removing matches |
| TodoScan.PairsMatchStep | src/utils/todoParser.ts:9 | at a key-value match the capture is the word up to the colon and the rest of the run, and the scan resumes after the run |
| TodoScan.FindReminderConcat | src/utils/todoParser.ts:71 | no reminder in either piece and none spanning the seam means none in the whole |
| TodoScan.NoTagMeaning | src/utils/todoParser.ts:7-8 | `NoTag` holds exactly when the tag pattern matches at no position |
| TodoScan.NoKeyValueMeaning | src/utils/todoParser.ts:9 | `NoKeyValue` holds exactly when `/(\w+):(\S+)/` matches at no position |
| TodoScan.StripNoTag | src/utils/todoParser.ts:82-83 | after removing a tag pattern's matches none is left |
| TodoScan.StripNoKeyValue | src/utils/todoParser.ts:84 | after removing the key-value matches none is left |
| TodoScan.StripKeepsNoTag | src/utils/todoParser.ts:82-84 | removing matches of one pattern creates no tag match |
| TodoScan.StripKeepsNoKeyValue | src/utils/todoParser.ts:82-83 | removing tag matches creates no key-value match |
| TodoScan.CollapseKeepsNoTag | src/utils/todoParser.ts:85 | collapsing whitespace runs creates no tag match |
| TodoScan.CollapseKeepsNoKeyValue | src/utils/todoParser.ts:85 | collapsing whitespace runs creates no key-value match |
| TodoScan.StrippedHasNoTokens | src/utils/todoParser.ts:81-84 | the three removals leave no project, context or key-value match |
| TodoScan.CleanTextHasNoTokens | src/utils/todoParser.ts:81-86 | the cleaned text is trimmed with single spaces and holds no project, context or key-value match |
| TodoParser.TagsStep | src/utils/todoParser.ts:51-53 | one scan step at a tag match captures the name and skips the match |
| TodoParser.ScanSkip | src/utils/todoParser.ts:51-67 | one scan step where nothing matches moves one character on |
| TodoParser.ExecTag | src/utils/todoParser.ts:51 | one global `exec` of `+name`/`@name` from `lastIndex`: `null` exactly when no match is left, else the first capture and the index after it |
| TodoParser.SkipToPair | src/utils/todoParser.ts:65 | the search of `exec` stops at the next key-value match or at the end, skipping no capture |
| TodoParser.ExecPair | src/utils/todoParser.ts:65 | one global `exec` of `/(\w+):(\S+)/g` from `lastIndex`: `null` exactly when no match is left, else the first key, value and index after it |
| TodoParser.CollectTags | src/utils/todoParser.ts:49-60 | the `exec` loop collects exactly the captures of every match, in order |
| TodoParser.CollectPairs | src/utils/todoParser.ts:62-67 | the `exec` loop leaves the record that storing every capture in order builds |
| TodoParser.ParseLine | src/utils/todoParser.ts:12-101 | `parseLine`'s stage-by-stage rewriting of the working line gives the item `ParsedLine` describes |
| TodoParser.ReadLines | src/utils/todoParser.ts:104-113 | `map(parseLine)` reads one result per line |
| TodoParser.SerializeTodo | src/utils/todoParser.ts:117-167 | `serializeTodo`'s piece-by-piece building of the line gives `SerializedTodo`, the trimmed line or the error of an invalid date |
| TodoParser.Collected | src/utils/todoParser.ts:169-171 | collecting results keeps one line per item when none fails |
| Todo.PutSpec | src/utils/todoParser.ts:66 | after `record[key] = value` the key reads `value`, other keys are unchanged, a new key goes last and keys stay distinct |
| Todo.FromPairsAppend | src/utils/todoParser.ts:65-67 | one more pair is one more assignment into the record |
| Todo.PutNewKey | src/utils/todoParser.ts:66 | assigning a missing key appends the entry |
| Todo.FromDistinctPairs | src/utils/todoParser.ts:62-67 | entries with distinct keys stored one after another give the same record back |
| Todo.MergeFacts | src/store/todosSlice.ts:22-27 | `{ ...todo, ...updates }`: the empty update changes nothing, merging twice equals merging once; for each of the eleven fields a present key replaces and an absent key keeps, and a key present with `undefined` clears the priority, either date or the reminder |
| LineFacts.BlankLineIsNull | src/utils/todoParser.ts:13-15 | a line reads as `null` exactly when it is blank |
| LineFacts.ParsedLineFacts | src/utils/todoParser.ts:12-101 | an item read from a non-blank line keeps the line as raw text, and its tags, pairs and text are what the scans and the clean-up give |
| LineFacts.ReminderOfFacts | src/utils/todoParser.ts:69-78 | a reminder is read exactly when the text holds a match; it is switched on and not notified, its date is the match's, and its message is the text with the match cut out and trimmed, absent when nothing is left |
| LineFacts.LastValue | src/utils/todoParser.ts:65-67 | a key has a value exactly when some pair carries it |
| LineFacts.LaterPairWins | src/utils/todoParser.ts:66 | a later duplicate key overwrites an earlier one |
| LineFacts.FromPairsDistinct | src/utils/todoParser.ts:63-67 | the record never holds a key twice |
| LineFacts.ReminderTokenIsKeyValue | src/utils/todoParser.ts:65-72 | a `reminder:` token that starts a word is also stored under the key `reminder` |
| LineFacts.PriorityPrefix | src/utils/todoParser.ts:33-39 | `(c)` at the front of a line is the priority of an open item |
| LineFacts.CreationDatePrefix | src/utils/todoParser.ts:41-46 | a date word at the front is the creation date of an open item without priority |
| LineFacts.CompletionDatePrefix | src/utils/todoParser.ts:20-31 | after `x `, a date word is the completion date of a completed item |
| LineFacts.ParsedHead | src/utils/todoParser.ts:17-46 | the head fields of an item are the completion, priority and creation stages in turn |
| LineFacts.WordAtFront | src/utils/todoParser.ts:28 | a date word followed by nothing or a space is `split(' ')[0]` and passes the date test |
| ScanTokens.SpaceEachJoin | src/utils/todoParser.ts:144-158 | `' ' + list.join(' ')` for a non-empty list is each token after one space |
| ScanTokens.NoReminderInOneColon | src/utils/todoParser.ts:10 | text with at most one colon holds no reminder match |
| ScanTokens.TagToken | src/utils/todoParser.ts:145 | `+name` is one match capturing `name`, and removing it leaves nothing |
| ScanTokens.PairToken | src/utils/todoParser.ts:156 | `key:value` is one match capturing `(key, value)`, and removing it leaves nothing |
| ScanTokens.Prefixed | src/utils/todoParser.ts:145 | `names.map(n => marker + n)` has one token per name, the marker followed by the name |
| ScanTokens.PairTexts | src/utils/todoParser.ts:155-156 | one `key:value` text per entry |
| ScanTokens.TagsOfOwnTokens | src/utils/todoParser.ts:144-151 | scanning written plain tags finds exactly the names written |
| ScanTokens.PairsOfOwnTokens | src/utils/todoParser.ts:153-159 | scanning written plain pairs finds exactly the pairs written |
| WrittenBody.BodyTags | src/utils/todoParser.ts:141-151 | each tag scan of a written body finds exactly its own names |
| WrittenBody.BodyPairs | src/utils/todoParser.ts:153-159 | the key-value scan of a written body finds exactly the pairs written |
| WrittenBody.BodyNoReminder | src/utils/todoParser.ts:69-78 | a body written without a reminder holds no reminder match |
| WrittenBody.StripProjects | src/utils/todoParser.ts:82 | removing project matches blanks out the project tokens only |
| WrittenBody.StripContexts | src/utils/todoParser.ts:83 | removing context matches then blanks out the context tokens only |
| WrittenBody.StripPairs | src/utils/todoParser.ts:84 | removing key-value matches blanks out the pair tokens |
| WrittenBody.BodyCleanText | src/utils/todoParser.ts:81-86 | the clean-up of a written body gives back the text written |
| RoundTrip.LineOfParts | src/utils/todoParser.ts:117-164 | the line built is the head pieces followed by the body |
| RoundTrip.TakeDateOfWord | src/utils/todoParser.ts:43-46 | the date stage on a date word takes the date and leaves the trimmed rest |
| RoundTrip.TakePriorityOfWord | src/utils/todoParser.ts:35-39 | the priority stage on `(c) ` takes the letter and leaves the rest |
| RoundTrip.ReadLineText | src/utils/todoParser.ts:18-46 | the stages before the scans take a written head apart and leave the body |
| RoundTrip.ReadDoneLine | src/utils/todoParser.ts:21-31 | the completion stage on `x `, an optional date word and the rest |
| RoundTrip.WrittenDay | src/utils/todoParser.ts:173-175 | a saved date is written as its `YYYY-MM-DD` day and read back as the start of that day |
| RoundTrip.SerializedWritable | src/utils/todoParser.ts:117-167 | a writable item is written without error as its head pieces and body |
| RoundTrip.ReadBody | src/utils/todoParser.ts:48-86 | the scans over a written body find the item's own tags and pairs and its text |
| RoundTrip.WrittenItemReadsBack | src/utils/todoParser.ts:12-167 | reading back a written writable item restores its completion, priority, text, tags, pairs and dates at day start, with the written line as raw text |
| FileCodec.SerializeFailsOnInvalidDate | src/utils/todoParser.ts:173-175 | writing throws exactly when a date it writes is invalid, with `toISOString`'s message |
| FileCodec.MonthThirteenIsInvalid | src/utils/todoParser.ts:6 | `2024-13-01` passes the date-shape test but is not a date |
| FileCodec.InvalidCompletionDateCannotBeWritten | src/utils/todoParser.ts:28-29 | a completion date of date shape that is not a date is read as an invalid date and makes writing the item fail |
| FileCodec.NonNullRawTexts | src/utils/todoParser.ts:114 | dropping the nulls keeps the non-blank lines in order |
| FileCodec.ParsedFileKeepsOrder | src/utils/todoParser.ts:103-115 | `parseFile` keeps exactly the non-blank lines, in order, as its items' raw texts |
| FileCodec.ParsedRawText | src/utils/todoParser.ts:98 | an item keeps the line it was read from |
| FileCodec.SerializedLinesAs | src/utils/todoParser.ts:169-171 | when every item can be written, the lines are the items' lines in order |
| FileCodec.SerializedLinesFails | src/utils/todoParser.ts:169-171 | writing a file stops at the first item that cannot be written, with its error |
| FileCodec.WrittenLineLacksNewline | src/utils/todoParser.ts:117-167 | a written line holds no line feed |
| FileCodec.SavedLineReadsBack | src/utils/todoParser.ts:12-167 | the line written for a writable item reads back as that item |
| FileCodec.WrittenFileReadsBack | src/utils/todoParser.ts:103-171 | a written file reads back as the same number of items, in order, each restored |
| FileCodec.EmptyFileIsEmpty | src/utils/todoParser.ts:103-115 | an empty file holds no items |
| FileCodec.SplitOfJoined | src/utils/todoParser.ts:104-105 | lines without line feeds joined and split again come back unchanged |
| Strings.ToLower | src/renderer/App_Complete.tsx:165 | lower-casing keeps the length and maps each ASCII capital to its small letter |
| Strings.Trim | src/utils/todoParser.ts:18 | `trim` leaves no whitespace at either end |
| Strings.TrimIsSlice | src/utils/todoParser.ts:18 | `trim` keeps one contiguous piece of its input |
| Strings.TrimEmptyIffBlank | src/utils/todoParser.ts:13 | `!line.trim()` holds exactly for a blank line |
| Strings.TrimOfTrimmed | src/utils/todoParser.ts:23 | trimming trimmed text changes nothing |
| Strings.CollapseSpacesCollapsed | src/utils/todoParser.ts:85 | `replace(/\s+/g, ' ')` leaves only lone spaces, and a leading space only where the input had one |
| Strings.CollapseSpacesOfCollapsed | src/utils/todoParser.ts:85 | collapsing text of lone spaces changes nothing |
| Strings.CleanUpIsClean | src/utils/todoParser.ts:85-86 | the clean-up always yields trimmed single-spaced text, and leaves such text alone |
| Strings.CollapseBlankTail | src/utils/todoParser.ts:85 | collapsing single-spaced text followed by whitespace adds at most one space |
| Strings.CleanUpOfCleanAndBlank | src/utils/todoParser.ts:81-86 | clean text followed only by whitespace is cleaned back to itself |
| Strings.Split | src/utils/todoParser.ts:105 | `split` on one character always gives at least one piece |
| Strings.SplitPiecesLackSeparator | src/utils/todoParser.ts:105 | no piece of a split holds the separator |
| Strings.SplitJoin | src/utils/todoParser.ts:170 | joining the pieces of a split with the separator gives the text back |
| Strings.JoinSplit | src/utils/todoParser.ts:105 | splitting pieces without the separator after joining them gives the pieces back |
| Strings.SplitHeadConcat | src/utils/todoParser.ts:28 | the first piece of a split depends only on the text before the first separator |
| Strings.NatToString | src/utils/timeUtils.ts:28-31 | `String(n)` of a non-negative number is a non-empty digit string |
| Strings.DigitsValueOfNatToString | src/utils/timeUtils.ts:28-31 | the digits of `String(n)` read back as `n` |
| Strings.PadZeros | src/utils/timeUtils.ts:28-31 | `padStart(width, '0')` fills to the width, keeps a longer string and keeps it digits only |
| Strings.PaddedNumberValue | src/utils/timeUtils.ts:28-31 | a zero-padded number reads back as itself |
| Strings.PaddedLength | src/utils/timeUtils.ts:28-31 | a number below 10^width fills exactly `width` characters once padded |
| Strings.Utf16Units | src/components/PasswordDialog_MUI.tsx:50 | a character below U+10000 is one code unit and not a surrogate; one above is a high and a low surrogate that decode back to it |
| Strings.Utf16 | src/components/PasswordDialog_MUI.tsx:50 | a string takes at least one and at most two code units per character |
| Strings.Utf16LengthOfBasic | src/components/PasswordDialog_MUI.tsx:50 | `length` counts characters below U+10000 once each; U+1F409 counts two, so four of them are 8 long |
| Strings.Utf16Injective | src/components/FilterBar_MUI.tsx:53-54 | different strings have different code units, so the sort key tells them apart |
| Calendar.DaysInMonth | src/utils/timeUtils.ts:29 | a month has 28 to 31 days |
| Calendar.DaysBeforeNextYear | src/utils/todoParser.ts:174 | the day count of the next year start is this year's start plus the year's length |
| Calendar.YearOfDay | src/utils/todoParser.ts:174 | the year found for a day number is the one whose days contain it |
| Calendar.CivilFromDays | src/utils/todoParser.ts:174 | the calendar date found for a day number is valid and has that day number |
| Calendar.DayNumberInjective | src/utils/todoParser.ts:174 | distinct valid dates have distinct day numbers |
| Calendar.CivilFromDayNumber | src/utils/todoParser.ts:174 | a valid date to day number and back is the identity |
| Calendar.DateTimeOf | src/utils/timeUtils.ts:26-31 | the fields read from a time value are valid and recombine to it |
| Calendar.TimeOfInjective | src/utils/timeUtils.ts:26-31 | distinct valid date-times have distinct time values |
| Calendar.DateTimeOfTimeOf | src/utils/timeUtils.ts:26-31 | recombining fields and reading them back is the identity |
| Calendar.Pad | src/utils/timeUtils.ts:28-31 | a padded field is digits that read back as the number, exactly `width` long when it fits |
| Calendar.ToIsoString | src/utils/todoParser.ts:163 | `toISOString` throws exactly on an invalid date, with the message "Invalid time value" |
| Calendar.ParseLocalDateTime | src/utils/timeUtils.ts:69 | a date-time text the `Date` constructor accepts begins with the ISO minute shape |
| Calendar.ParseIsoDate | src/utils/todoParser.ts:29 | `new Date('YYYY-MM-DD')` is midnight UTC of that day |
| Calendar.ParseIsoMinute | src/utils/todoParser.ts:74 | `new Date('YYYY-MM-DDTHH:mm')` is the minute it names |
| Calendar.FloorOfWholeMinutes | src/utils/todoParser.ts:163 | whole minutes plus less than a minute round down to the whole minutes |
| Calendar.IsoStringDatePrefix | src/utils/todoParser.ts:174 | the first ten characters of `toISOString` are the date and the first sixteen the minute |
| Calendar.StartOfDay | src/utils/todoParser.ts:174 | the start of the day holding a time is at most that time, less than a day before, and a whole day |
| Calendar.ParseIsoDateOfTime | src/utils/todoParser.ts:173-175 | the written date of a time value reads back as the start of its day |
| Calendar.IsoDateShapeChars | src/utils/todoParser.ts:6 | a `\d{4}-\d{2}-\d{2}` text is made of digits and dashes |
| TimeUtils.MinimumReminderDateTime | src/utils/timeUtils.ts:10-13 | the earliest allowed reminder is five minutes after now |
| TimeUtils.ValidIsFiveMinutesAhead | src/utils/timeUtils.ts:18-21 | a date is valid exactly when it is at least five minutes ahead; nothing in the past is valid; the bound itself is |
| TimeUtils.FormatDateTimeLocalReadsBack | src/utils/timeUtils.ts:26-34 | for years 1000 to 9999 the text is the 16-character ISO minute, and `new Date` reads it back as the time floored to the minute |
| TimeUtils.RoundDiv | src/utils/timeUtils.ts:42 | `Math.round(n / d)` lies within half of `d` of the quotient, halves rounding up |
| TimeUtils.RelativeTime | src/utils/timeUtils.ts:39-59 | an invalid date gives no number; "in the past" exactly for more than 30 seconds ago; counts are never negative |
| TimeUtils.RelativeUnits | src/utils/timeUtils.ts:44-58 | minutes up to 59.5 minutes ahead, hours up to 23 h 29.5 min, days beyond |
| TimeUtils.RelativeTimeString | src/utils/timeUtils.ts:39-59 | every phrase starts with "in " |
| TimeUtils.RelativeTimeStringFacts | src/utils/timeUtils.ts:44-58 | the phrase is "in the past" exactly for times more than 30 seconds ago, and a unit is plural exactly when its count is not 1 |
| TimeUtils.ValidateAndAdjust | src/utils/timeUtils.ts:64-94 | valid exactly when the date is five minutes ahead, then kept unchanged; otherwise the minimum with "Invalid date format" or the too-soon message |
| TimeUtils.AdjustedIsValid | src/utils/timeUtils.ts:64-94 | the adjusted time always validates again, unchanged |
| TimeUtils.TooSoonMessageText | src/utils/timeUtils.ts:86 | the too-soon message names five minutes |
| Encryption.Effective | src/utils/encryption.ts:9-13 | a given option overrides the default of 10000 iterations, key size 8 and IV size 4 |
| Encryption.HexDigit | src/utils/encryption.ts:47 | a hex digit is a decimal digit or `a` to `f` |
| Encryption.HexString | src/utils/encryption.ts:47 | `WordArray.toString()` gives two digits per byte and no colon |
| Encryption.DecryptErrorsAreWrapped | src/utils/encryption.ts:88-90 | every failure of `decryptData` is one error whose message starts with "Decryption failed: " |
| Encryption.DecryptRejectsBadFormat | src/utils/encryption.ts:61-65 | a sealed text without exactly three parts is rejected for its format, whatever the password |
| Encryption.SplitThree | src/utils/encryption.ts:61 | three colon-free parts joined with `:` split back into those three |
| Encryption.EnvelopeParts | src/utils/encryption.ts:29-50 | the envelope unseals to the hex salt (32 digits for 16 bytes), the hex IV and the ciphertext |
| Encryption.EncryptedIsValid | src/utils/encryption.ts:112-120 | every envelope `encryptData` makes from a 16-byte salt and IV passes `isValidEncryptedData` |
| Encryption.DecryptOfEncrypt | src/utils/encryption.ts:29-91 | decrypting with the same password and options gives non-empty data back; empty data is reported as a wrong password |
| Encryption.RandomByte | src/utils/encryption.ts:102 | each random byte is below 256 |
| Encryption.PasswordChar | src/utils/encryption.ts:103 | each password character is from the charset |
| Encryption.GeneratePassword | src/utils/encryption.ts:96-107 | the loop gives `length` characters (none for a non-positive length), character `i` taken from byte `i` |
| Encryption.VerifyOwnHash | src/utils/encryption.ts:125-134 | a password verifies against a hash exactly when it hashes to it, so always against its own hash |
| App.OpenedContent | src/renderer/App_Complete.tsx:69-83 | content is taken as encrypted exactly when it starts with `ENCRYPTED:`; marked content without a password asks for one |
| App.SavedContent | src/renderer/App_Complete.tsx:115-120 | saved content gains the `ENCRYPTED:` marker exactly when encryption is on with a password, is the serialised list otherwise, and fails exactly when serialising fails |
| App.EncryptedSaveOpens | src/renderer/App_Complete.tsx:72-83 | an encrypted save opens again with the same password and decrypts to the serialised list when that is not empty |
| App.EncryptedSaveReadsBack | src/renderer/App_Complete.tsx:67-120 | saving writable todos encrypted and opening the file again restores every todo, in order |
| App.EncryptedEmptyListDoesNotOpen | src/renderer/App_Complete.tsx:115-120 | an encrypted save of the empty list decrypts to the empty text and fails to open as a wrong password |
| App.LastIndex | src/renderer/App_Complete.tsx:125 | the last occurrence of a character, or none when it does not occur |
| App.ReplaceExtensionMeaning | src/renderer/App_Complete.tsx:125 | `replace(/\.[^.]+$/, repl)` replaces exactly the final extension and leaves a name without one alone |
| App.ReplaceAt | src/renderer/App_Complete.tsx:125 | with the extension at `i` the rewrite is the text before `i` followed by the replacement |
| App.LastDotIsExtension | src/renderer/App_Complete.tsx:125 | an extension, where there is one, starts at the last `.` |
| App.LastSegment | src/renderer/App_Complete.tsx:131 | `split('/').pop()` holds no `/` and ends the path |
| App.Directory | src/renderer/App_Complete.tsx:335 | the directory followed by the last segment is the path |
| App.DisplayName | src/renderer/App_Complete.tsx:333-337 | the display name of a set path ends in `.dtd` and holds no `/` |
| App.SavePathAsWritten | src/renderer/App_Complete.tsx:123-127 | the rewrite works on the whole path: a dot in a directory swallows the rest of the path, and a path without an extension is kept and never ends in `.dtd` |
| App.CorrectedSavePathFacts | src/renderer/App_Complete.tsx:123-127 | a save path that replaces only the file name's extension keeps the directory, agrees with the display name, and agrees with the rewrite wherever the last segment has an extension |
| App.UpdatedList | src/renderer/App_Complete.tsx:250-254 | the list keeps its length; items with the id are merged with the update, all others kept |
| App.DeletedList | src/renderer/App_Complete.tsx:275 | no item with the id is left, every other item is kept, and the length drops by the number removed |
| App.FindById | src/renderer/App_Complete.tsx:258 | `find` gives the first member with the id (no earlier item has it), or none exactly when no item has it |
| App.TodoApp.LoadFile | src/renderer/App_Complete.tsx:67-106 | marked content without a password opens the dialog in decrypt mode; a failed decryption shows its message; neither touches the list, path, password, flags or reminders; otherwise the list is the parsed file, nothing is modified, encryption and password follow the marker, the path is kept when given, the notice counts the todos, and the reminders are set up for the items with one: the whole scheduler state is every earlier timer cleared, then those items scheduled in list order, with no notification shown |
| App.TodoApp.ShowParsed | src/renderer/App_Complete.tsx:85-98 | the list is the parsed file; no item with a reminder leaves the reminder service untouched; otherwise its whole state is every earlier timer cleared and the items with a reminder scheduled in list order, so exactly the schedulable ones are active; no notification is shown |
| App.TodoApp.SaveFile | src/renderer/App_Complete.tsx:111-139 | no path does nothing; a failed save shows its message and keeps the path and the modified flag; otherwise the content written is the saved content, the path gets `.dtd` by the rewrite, nothing is modified, and the notice names the count and the last segment |
| App.TodoApp.AddTodo | src/renderer/App_Complete.tsx:229-244 | the item with its new id is appended and the list modified; a switched-on reminder becomes the only active one, the whole scheduler state being every earlier timer cleared and the new item scheduled; without one the reminder service is untouched; the path, encryption and dialog are untouched |
| App.TodoApp.UpdateTodo | src/renderer/App_Complete.tsx:249-269 | the list is the updated list; a switched-on merged reminder becomes the only active one, the whole scheduler state being every earlier timer cleared and the merged item scheduled; when off, the id's reminder is cancelled: its timer alone is cleared and the handle counter and notifications kept, or nothing changes when it had none; an unknown id touches no reminder; the path, encryption and dialog are untouched |
| App.TodoApp.RefreshReminder | src/renderer/App_Complete.tsx:260-265 | a switched-on reminder of the merged item is set up alone (every earlier timer cleared, that item scheduled); otherwise the id's reminder is cancelled, clearing its timer only, or nothing changes when the id had none |
| App.TodoApp.DeleteTodo | src/renderer/App_Complete.tsx:274-279 | every item with the id is removed; only its reminder is cancelled, so its timer never fires and every other reminder stays; the path, encryption and dialog are untouched |
| TodoView.Where | src/renderer/App_Complete.tsx:149 | `filter` keeps exactly the members that pass, never lengthening the list |
| TodoView.WhereThen | src/renderer/App_Complete.tsx:148-171 | filtering by one test then another is filtering once by both |
| TodoView.Filtered | src/renderer/App_Complete.tsx:145-171 | exactly the todos passing every set criterion, an unset criterion passing everything |
| TodoView.SortKeyFacts | src/renderer/App_Complete.tsx:178-191 | a missing priority follows every letter, a missing creation date sorts as 0, open items precede completed ones |
| TodoView.StepNarrows | src/renderer/App_Complete.tsx:148-171 | each filter step applied to the list of the earlier steps leaves the list passing one more criterion |
| TodoView.VisibleTodos | src/renderer/App_Complete.tsx:144-198 | the effect's list is the filtered todos, stably sorted by the comparator |
| TodoView.VisibleFacts | src/renderer/App_Complete.tsx:144-198 | every item shown passes the filter and every such todo is shown as often as it occurs; the list is in order, ties keep their input order, and `{}` shows a permutation of all todos |
| StableSort.LexCompareFlip | src/renderer/App_Complete.tsx:181 | swapping the operands negates the comparison |
| StableSort.LexCompareZero | src/renderer/App_Complete.tsx:187 | only equal keys compare as 0 |
| StableSort.LexCompareTrans | src/renderer/App_Complete.tsx:187 | the comparison is transitive |
| StableSort.CompareFacts | src/renderer/App_Complete.tsx:194 | `desc` negates the comparator, which stays antisymmetric |
| StableSort.InsertPermutes | src/renderer/App_Complete.tsx:174 | inserting adds the item and keeps every other |
| StableSort.InsertSorted | src/renderer/App_Complete.tsx:174 | inserting into a sorted list keeps it sorted |
| StableSort.SortBySorted | src/renderer/App_Complete.tsx:174-195 | the sort's result is in order and a permutation of its input |
| StableSort.SortByStable | src/renderer/App_Complete.tsx:174-195 | items with equal keys come out in the order they went in |
| StableSort.InsertAt | src/renderer/App_Complete.tsx:174 | one insertion pass moves `a[i]` into place among `a[..i]` and leaves the rest of the array alone |
| StableSort.SortInPlace | src/renderer/App_Complete.tsx:174-195 | the array ends as the stable sort of its old contents |
| StableSort.Sort | src/renderer/App_Complete.tsx:145-195 | sorting a copy gives the stable sort of the list |
| App.TodoApp.constructor | src/renderer/App_Complete.tsx:42-61 | no todos, no file, nothing modified, encryption off with no password, the dialog closed in encrypt mode, and an empty scheduler |
| App.TodoApp.ToggleEncryption | src/renderer/App_Complete.tsx:319-328 | encryption on is turned off and the password forgotten; encryption off opens the dialog in encrypt mode; the list and path are untouched |
| App.TodoApp.HandlePasswordSubmit | src/renderer/App_Complete.tsx:300-314 | in encrypt mode the password is set and encryption turned on; in decrypt mode a file that is open is loaded again with the password, with every outcome of `loadFile`: its notice, the clean flag and the whole reminder state (earlier timers cleared, the loaded reminders scheduled in list order); the dialog closes unless that load asks for a password again |
| Reminders.NotificationBody | src/services/reminderService.ts:72 | the body is the message when it is non-empty, else the todo's text |
| Reminders.ThirtyDaysIsTheLimit | src/services/reminderService.ts:37-43 | a reminder exactly thirty days ahead is scheduled; one millisecond more is not |
| Reminders.TimerWait | src/services/reminderService.ts:45-48 | `setTimeout` waits the delay when it fits in a signed 32-bit number, and no time for a delay from 2^31 up to 2^32 ms |
| Reminders.DueTimeOfScheduled | src/services/reminderService.ts:37-48 | a scheduled reminder at most 2^31 - 1 ms ahead runs at its time; one further ahead runs the moment it is set |
| Reminders.TwentyFiveDaysRunsAtOnce | src/services/reminderService.ts:37-48 | a reminder 2,160,000,000 ms (25 days) ahead passes the thirty-day guard and runs at once |
| Reminders.WithinTimeoutRunsOnTime | src/services/reminderService.ts:40-48 | with the limit lowered to 2^31 - 1 ms every timer set runs exactly at its reminder's time, at least five minutes ahead |
| Reminders.WithoutMembers | src/services/reminderService.ts:101 | removing ids from the key order keeps exactly the others, still distinct |
| Reminders.WithoutTwice | src/services/reminderService.ts:47 | two removals from the key order are one removal of both sets |
| Reminders.DropMembers | src/services/reminderService.ts:57 | clearing timers keeps exactly those whose handle was not cleared |
| Reminders.DropTwice | src/services/reminderService.ts:63-65 | two rounds of clearing are one round clearing both sets |
| Reminders.DropKeepsIncreasing | src/services/reminderService.ts:45 | clearing timers keeps the order they were set in |
| Reminders.DueMembers | src/services/reminderService.ts:45-48 | the due timers are exactly the pending ones whose time has come |
| Reminders.DueAppend | src/services/reminderService.ts:45-48 | the due timers of two runs of timers are those of each, in order |
| Reminders.NotDueMembers | src/services/reminderService.ts:45-48 | the timers left are exactly the pending ones not yet due |
| Reminders.RunOrderFacts | src/services/reminderService.ts:45-48 | the due timers run each once, in order of due time, and those due together in the order they were set |
| Reminders.DueOnce | src/services/reminderService.ts:45-48 | a timer set once is among the due timers at most once |
| Reminders.SameHandleSameTimer | src/services/reminderService.ts:45 | two pending timers with the same handle are the same timer |
| Reminders.RunOrderDistinct | src/services/reminderService.ts:45-48 | in the run order each timer is pending and has a handle none of those run before it has |
| Reminders.TodoIdsMembers | src/services/reminderService.ts:47 | the ids deleted are exactly those of the timers that ran |
| Reminders.IdsOfSameTimers | src/services/reminderService.ts:45-48 | the same timers in another order clear the same handles and delete the same ids |
| Reminders.HandlesOfMembers | src/services/reminderService.ts:63-65 | the handles cleared are exactly the ones the map holds for the ids |
| Reminders.DropDue | src/services/reminderService.ts:45-48 | once the due timers have run, the timers not yet due are left |
| Reminders.HandlesOfAll | src/services/reminderService.ts:63-65 | the handles held for every key are all the map's values |
| Reminders.ClearedWithoutStale | src/services/reminderService.ts:62-67 | with no stale timer, clearing every held timer leaves nothing pending |
| Reminders.Cleared | src/services/reminderService.ts:62-67 | clearing every held timer leaves the timers the map does not hold, still in order, and nothing when none is stale |
| Reminders.ClearTimers | src/services/reminderService.ts:63-65 | `clearTimeout` for each id's handle in turn leaves the timers with other handles |
| Reminders.ScheduledAllIds | src/services/reminderService.ts:12-16 | after scheduling a list the active ids are the earlier ones and those of the todos whose reminder schedules, each listed once |
| Reminders.ScheduledAllStaleFree | src/services/reminderService.ts:12-16 | scheduling todos with distinct new ids from a state without stale timers leaves no stale timer |
| Reminders.ScheduledAgainLeaks | src/services/reminderService.ts:45-51 | scheduling an active id again leaves its earlier timer pending while the map forgets it, so it can no longer be cancelled |
| Reminders.ReminderService.constructor | src/services/reminderService.ts:5 | the map starts empty with no timer pending |
| Reminders.ReminderService.ScheduleReminder | src/services/reminderService.ts:19-52 | nothing unless switched on, at least five minutes and at most thirty days ahead; otherwise a timer is set, due when `setTimeout` runs it, and stored under the id |
| Reminders.ReminderService.SetupReminders | src/services/reminderService.ts:7-17 | every earlier reminder is cleared, then exactly the todos whose reminder schedules become active; no stale timer arises for distinct ids |
| Reminders.ReminderService.CancelReminder | src/services/reminderService.ts:54-60 | the id's timer is cleared and the id forgotten; an unknown id changes nothing |
| Reminders.ReminderService.ClearAllReminders | src/services/reminderService.ts:62-67 | every held timer is cleared and the map emptied (the state `ClearedAll` describes); with no stale timer nothing can fire afterwards |
| Reminders.ClearedAll | src/services/reminderService.ts:62-67 | after `clearAllReminders` no id is active and a timer is left pending exactly when it was pending and not held in the map; the handle counter is kept |
| Reminders.ReminderService.Fire | src/services/reminderService.ts:45-48 | a firing timer adds one notification and deletes its todo's id, whichever timer the map holds for it |
| Reminders.ReminderService.Tick | src/services/reminderService.ts:45-48 | every timer due runs, earliest due first and timers due together in the order set: one notification each, their ids deleted, the rest still pending |
| Reminders.ReminderService.ActiveReminderCount | src/services/reminderService.ts:95-97 | the count is the size of the map |
| Reminders.ReminderService.ActiveReminderIds | src/services/reminderService.ts:100-102 | the ids are the map's keys in insertion order, each once |
| TodosSlice.FirstWithId | src/store/todosSlice.ts:24 | `find` gives the first index holding the id, or none when no item has it |
| TodosSlice.TodosState.constructor | src/store/todosSlice.ts:8-10 | the initial state has no todos |
| TodosSlice.TodosState.SetTodos | src/store/todosSlice.ts:16-18 | the list is replaced by the payload |
| TodosSlice.TodosState.AddTodo | src/store/todosSlice.ts:19-21 | the payload is appended and every earlier item kept |
| TodosSlice.TodosState.UpdateTodo | src/store/todosSlice.ts:22-28 | the first item with the id is merged with the updates; the length and every other item stay; an absent id changes nothing |
| TodosSlice.TodosState.DeleteTodo | src/store/todosSlice.ts:29-31 | every item with the id is removed, the rest kept in order |
| TodosSlice.UpdateAgreesWithWindow | src/store/todosSlice.ts:22-28 | for distinct ids the slice's update agrees with the window's update of every item with the id |
| TodosSlice.UpdateWithRepeatedId | src/store/todosSlice.ts:24-26 | with a repeated id the slice updates only the first item |
| TodosSlice.DeleteFacts | src/store/todosSlice.ts:29-31 | deleting an absent id changes nothing and a second delete changes nothing |
| FilterSlice.FilterState.constructor | src/store/filterSlice.ts:10-14 | the empty filter, sorted by text, ascending |
| FilterSlice.FilterState.SetFilter | src/store/filterSlice.ts:20-22 | the filter is replaced wholesale and the sort kept |
| FilterSlice.FilterState.SetSort | src/store/filterSlice.ts:23-26 | both sort fields are set and the filter kept |
| FilterBar.Removed | src/components/FilterBar.tsx:59 | `filter(p => p !== project)` keeps exactly the other names |
| FilterBar.RemovedAbsent | src/components/FilterBar.tsx:59 | removing a name that is not there changes nothing |
| FilterBar.ToggledFacts | src/components/FilterBar.tsx:56-66 | a toggle never stores `[]`; it removes every occurrence of a selected name and appends any other |
| FilterBar.ToggleTwice | src/components/FilterBar.tsx:56-66 | toggling an unselected name twice gives the field back |
| FilterBar.RemovedLast | src/components/FilterBar.tsx:59-60 | removing the name just appended to a list without it gives the list back |
| FilterBar.CompletedChange | src/components/FilterBar.tsx:25-31 | "all" sets no criterion, "true" completed, anything else open |
| FilterBar.SearchChange | src/components/FilterBar.tsx:41-46 | an empty search is stored as `undefined`, any other as it is |
| FilterBar.HandlersChangeOneField | src/components/FilterBar.tsx:25-78 | each handler changes its own field of the filter and no other |
| FilterBar.AllTagsFacts | src/components/FilterBar.tsx:22-23 | every name some todo carries, once, in order of first occurrence |
| TagSets.AllNamesMember | src/components/FilterBar.tsx:22 | `flatMap` lists a name exactly when some todo carries it |
| TagSets.Dedup | src/components/FilterBar.tsx:22 | `Array.from(new Set(xs))` is duplicate-free with the same names |
| TagSets.DedupNext | src/components/FilterBar_MUI.tsx:48 | `set.add`: a known name changes nothing, a new one goes last |
| TagSets.FirstIndex | src/components/FilterBar.tsx:22 | the first position of a name: it is there and not before |
| TagSets.DedupKeepsFirstOrder | src/components/FilterBar.tsx:22 | the distinct names come in the order of their first occurrence |
| TagSets.DedupCount | src/components/StatsPanel_MUI.tsx:40-60 | there are as many distinct names as the set of names holds |
| TagSets.AddEach | src/components/FilterBar_MUI.tsx:48-49 | adding each name in turn gives the distinct names in first-occurrence order |
| TagSets.CollectNames | src/components/FilterBar_MUI.tsx:47-50 | the loop over the todos fills each set with the distinct names in first-occurrence order |
| FilterBarMui.TextKeyInjective | src/components/FilterBar_MUI.tsx:53 | the sort key, the string's UTF-16 code units, identifies the string |
| FilterBarMui.DistinctCounts | src/components/FilterBar_MUI.tsx:53 | a list is duplicate-free exactly when no string counts more than once |
| FilterBarMui.UniqueSortedTags | src/components/FilterBar_MUI.tsx:43-56 | each list holds exactly the names the todos carry, once each, in the default `sort()` order of UTF-16 code units |
| FilterBarMui.SortedPermutation | src/components/FilterBar_MUI.tsx:53-54 | sorting the set's names keeps them distinct and the same names |
| FilterBarMui.CompletedChange | src/components/FilterBar_MUI.tsx:62-68 | "all" sets no criterion, "completed" completed, anything else open; no other field changes |
| FilterBarMui.Selection | src/components/FilterBar_MUI.tsx:78-92 | an empty selection is stored as `undefined`, any other as it is |
| FilterBarMui.InactiveFilterShowsAll | src/components/FilterBar_MUI.tsx:103-109 | a filter that is not active lets every todo through; the cleared filter is not active |
| FilterBarMui.RemoveLastProject | src/components/FilterBar_MUI.tsx:295-298 | deleting the chip of the only selected project stores `[]`, which filters nothing |
| FilterBarMui.SortValueRoundTrip | src/components/FilterBar_MUI.tsx:94-97 | the select's `field-direction` value splits back into the field and direction it was made of |
| StatsPanel.WhereCountSplit | src/components/StatsPanel.tsx:11-13 | when a test holds exactly when one of two others does, its count is the sum of theirs |
| StatsPanel.WhereAppend | src/components/StatsPanel.tsx:12 | one more item is kept at the end exactly when it passes |
| StatsPanel.OverviewOf | src/components/StatsPanel.tsx:11-13 | `total` is the number of todos, `completed` the done ones, `pending` the open ones |
| StatsPanel.CompletionPercentage | src/components/StatsPanel.tsx:46 | the whole percentage nearest the completed share, halves rounded up, at most 100, and 0 without todos |
| StatsPanel.RoundedShare | src/components/StatsPanel.tsx:46 | `(200 c + t) / (2 t)` is `100 c / t` rounded half up, at most 100 when `c <= t` |
| StatsPanel.BumpCounts | src/components/StatsPanel.tsx:24 | `acc[key] = (acc[key] \|\| 0) + 1` turns a count of some names into a count of one more |
| StatsPanel.CountsOfNothing | src/components/StatsPanel.tsx:27 | the empty record counts no names |
| StatsPanel.CountSumAll | src/components/StatsPanel.tsx:22-27 | over the distinct names the counts add up to the number of names |
| StatsPanel.CountsTotal | src/components/StatsPanel.tsx:22-34 | the values of a record of counts add up to the number of names counted |
| StatsPanel.CountNames | src/components/StatsPanel.tsx:22-34 | the reduction counts every project (or context) of every todo, a name repeated within one todo twice |
| StatsPanel.CountEach | src/components/StatsPanel.tsx:23-25 | the inner `forEach` extends the count by the todo's names |
| StatsPanel.PriorityLettersCount | src/components/StatsPanel.tsx:15-20 | a letter occurs as often as todos have that priority, and there are as many letters as prioritised todos |
| StatsPanel.CountPriorities | src/components/StatsPanel.tsx:15-20 | `byPriority` counts the letters of the todos that have one |
| StatsPanel.PriorityTotals | src/components/StatsPanel.tsx:15-20 | the priority counts add up to the prioritised todos, each letter's count the todos with that priority |
| StatsPanel.PriorityRows | src/components/StatsPanel.tsx:78-79 | the priority table is the record's entries sorted by letter |
| StatsPanel.CountOrder | src/components/StatsPanel.tsx:93 | `b - a` orders entries by count, largest first |
| StatsPanel.TopFiveFacts | src/components/StatsPanel.tsx:92-94 | at most five entries of the record, in non-increasing count, and none left out has a larger count than one shown |
| StatsPanel.ReminderCounts | src/components/StatsPanel.tsx:119-133 | the section appears exactly when a reminder is on; active and overdue add up to the enabled reminders when every date is valid |
| StatsPanelMui.ComputeStats | src/components/StatsPanel_MUI.tsx:28-63 | totals, active count, per-letter counts, distinct project and context counts and reminder count as the `useMemo` computes them |
| StatsPanelMui.PrioritiesAtMostAll | src/components/StatsPanel_MUI.tsx:35-37 | the A, B and C counts together are at most the total |
| FormTokens.Words | src/components/TodoForm_MUI.tsx:52-53 | the pieces of `split(/\s+/)` that matter: each non-empty and free of whitespace |
| FormTokens.WordsOfJoin | src/components/TodoForm_MUI.tsx:52-53 | words joined by single spaces split back into the same words |
| FormTokens.Marked | src/components/TodoForm_MUI.tsx:54-56 | the names kept after the three filter/map steps are never empty |
| FormTokens.MarkedNames | src/components/TodoForm_MUI.tsx:52-62 | every name read from a project or context field is non-empty and free of whitespace |
| FormTokens.MarkedWords | src/components/TodoForm_MUI.tsx:54-56 | a name is read exactly when the marker followed by it is one of the words, in the words' order |
| FormTokens.MarkedOfUnmarked | src/components/TodoForm_MUI.tsx:54 | words that do not start with the marker give no names |
| FormTokens.MarkedOfPrefixed | src/components/TodoForm_MUI.tsx:54-56 | marked words read back as the names they mark |
| FormTokens.TagFieldAsWrittenLosesNames | src/components/EditTodoModal_MUI.tsx:39-40 | a field filled with `names.join(' ')` reads back no names at all; `["work"]` becomes `[]` |
| FormTokens.TagFieldRoundTrip | src/components/EditTodoModal_MUI.tsx:91-101 | a field holding each name with its marker reads back exactly the names |
| FormTokens.Kept | src/components/TodoForm.tsx:76-77 | `.map(p => p.trim()).filter(Boolean)` keeps no empty entry |
| FormTokens.KeptFacts | src/components/TodoForm.tsx:76-77 | each kept entry is trimmed, and a string is kept exactly when it is some piece trimmed and not empty |
| FormTokens.KeptLacks | src/components/TodoForm.tsx:76-77 | pieces free of a character give entries free of it |
| FormTokens.CommaListFacts | src/components/TodoForm.tsx:76-77 | each entry of a comma list is non-empty, trimmed and free of commas, and is exactly some trimmed non-empty piece between commas |
| FormTokens.CommaListOfJoin | src/components/TodoForm.tsx:76-77 | trimmed comma-free names joined by commas read back as themselves |
| TodoForm.ErrorFor | src/components/TodoForm.tsx:42-53 | the error text is empty exactly when the switch is off, the date is empty or the date validates; otherwise it is the validation's message |
| TodoForm.MinimumTextRejected | src/components/TodoForm.tsx:60-69 | the minimum filled in by the switch reads back to the whole minute, so the form's own check rejects it unless five minutes from now is a whole minute |
| TodoForm.Payload | src/components/TodoForm.tsx:76-105 | the new todo: trimmed text and raw text, open, created now, comma lists, no key/value pairs, and an enabled reminder (with the untrimmed text as message) that validates |
| TodoForm.Form.constructor | src/components/TodoForm.tsx:16-22 | every field starts empty and the switch off |
| TodoForm.Form.ToggleReminder | src/components/TodoForm.tsx:60-69 | the switch takes the new value, an empty date is filled with the minimum when switching on, and the error text follows the check; other fields unchanged |
| TodoForm.Form.ChangeReminderDateTime | src/components/TodoForm.tsx:55-58 | the date takes the typed value and the error text follows the check; other fields unchanged |
| TodoForm.Form.HandleSubmit | src/components/TodoForm.tsx:71-117 | a todo is sent exactly when the text is not blank and an entered reminder validates; blank text changes nothing, a failing reminder leaves its message, and a sent todo resets the form |
| TodoForm.Form.Reset | src/components/TodoForm.tsx:110-116 | every field back to its initial value |
| TodoFormMui.CheckReminder | src/components/TodoForm_MUI.tsx:109-120 | with the switch on and a date entered, valid exactly when the date validates, with an error exactly when invalid and a relative time exactly when valid; otherwise unchecked |
| TodoFormMui.PrefillFacts | src/components/TodoForm_MUI.tsx:100-107 | the filled-in date is the minute five minutes ahead, and it passes the form's check only when that moment is a whole minute |
| TodoFormMui.Form.constructor | src/components/TodoForm_MUI.tsx:33-44 | every field at its initial value and the check reporting valid |
| TodoFormMui.Form.ToggleReminder | src/components/TodoForm_MUI.tsx:100-107 | the switch takes the new value, an empty date is prefilled when switching on, the check follows; other fields unchanged |
| TodoFormMui.Form.ChangeReminderDateTime | src/components/TodoForm_MUI.tsx:109-120 | the date takes the typed value and the check follows; other fields unchanged |
| TodoFormMui.Form.HandleSubmit | src/components/TodoForm_MUI.tsx:46-98 | a todo goes out exactly when `canSubmit` holds and an entered reminder validates now; it carries the trimmed text, the priority, the marked names and the reminder; nothing changes otherwise, and the form is reset after sending |
| TodoFormMui.Form.Reset | src/components/TodoForm_MUI.tsx:90-97 | every field back to its initial value |
| EditTodoModal.SavedUpdate | src/components/EditTodoModal_MUI.tsx:88-121 | no update for blank text; otherwise trimmed text, priority and marked names, and a reminder exactly when it is on, dated and valid now |
| EditTodoModal.SaveUntouched | src/components/EditTodoModal_MUI.tsx:91-101 | with the names written with their markers, opening and saving a todo untouched keeps its text, priority, projects and contexts; an enabled reminder survives, to the minute, only when still at least five minutes ahead |
| EditTodoModal.SaveUntouchedAsWritten | src/components/EditTodoModal_MUI.tsx:37-44 | with the fields as the dialog fills them, an untouched save of names without markers clears every project and context and keeps the text and priority |
| EditTodoModal.SavedReminder | src/components/EditTodoModal.tsx:85-95 | the saved reminder is the field's date when on, dated and valid now, and none otherwise |
| EditTodoModal.EditDialog.constructor | src/components/EditTodoModal.tsx:19-26 | the fields start filled from the todo, its names joined with spaces |
| EditTodoModal.EditDialog.Open | src/components/EditTodoModal_MUI.tsx:52-63 | opening refills every field from the todo, its names joined with spaces |
| EditTodoModal.EditDialog.HandleSave | src/components/EditTodoModal_MUI.tsx:88-125 | the update sent is the one the fields determine now |
| PasswordDialog.PasswordProblem | src/components/PasswordDialog_MUI.tsx:39-54 | the first failing check's message in the order required, matching, length 8 counted in UTF-16 code units; no problem exactly when the password is present and, when encrypting, matches and is long enough |
| PasswordDialog.LengthCountsCodeUnits | src/components/PasswordDialog_MUI.tsx:50 | four characters above U+FFFF are long enough, as eight code units; seven basic characters are refused with the length message |
| PasswordDialog.DisabledIsRefused | src/components/PasswordDialog_MUI.tsx:173 | a disabled submit button hides only submissions the checks refuse; when decrypting it is disabled exactly when they refuse |
| PasswordDialog.Dialog.constructor | src/components/PasswordDialog_MUI.tsx:34-37 | every field starts cleared |
| PasswordDialog.Dialog.HandleSubmit | src/components/PasswordDialog_MUI.tsx:39-58 | a problem shows its message and reports nothing; otherwise the password is reported, then the cancel, and the fields are cleared |
| PasswordDialog.Dialog.HandleClose | src/components/PasswordDialog_MUI.tsx:60-66 | every field cleared and the cancel reported |
| PasswordDialog.Dialog.HandleKeyDown | src/components/PasswordDialog_MUI.tsx:68-72 | Enter behaves as submit: a failed check shows its message and keeps both password fields and the visibility toggle, a passing one reports the password and clears the dialog; any other key changes nothing |
| TodoItemView.ToggleUpdate | src/components/TodoItem.tsx:17-22 | the update flips completion, sets a completion date exactly when the todo becomes completed, and changes nothing else |
| TodoItemView.ToggleTwice | src/components/TodoItem.tsx:17-22 | toggling twice gives the flag back; only the completion date may differ |
| TodoItemView.SaveEditUpdate | src/components/TodoItem.tsx:33-36 | an update exactly when the edit is not blank, setting only the trimmed text |
| TodoItemView.SaveEditChangesOnlyText | src/components/TodoItem.tsx:33-36 | saving an edit changes the todo's text to the trimmed edit and nothing else |
| TodoItemView.ItemView.constructor | src/components/TodoItem.tsx:13-14 | not editing, with the todo's text |
| TodoItemView.ItemView.HandleEdit | src/components/TodoItem.tsx:24-27 | into edit mode with the todo's text |
| TodoItemView.ItemView.HandleSaveEdit | src/components/TodoItem.tsx:33-38 | an update for the todo's id exactly when the edit is not blank; edit mode ends either way |
| TodoItemView.ItemView.HandleCancelEdit | src/components/TodoItem.tsx:40-43 | the todo's text back and edit mode ended |
| TodoItemView.ItemView.HandleKeyDown | src/components/TodoItem.tsx:45-51 | Enter saves, Escape cancels, any other key changes nothing |
| TodoItemView.ItemView.HandleDelete | src/components/TodoItem.tsx:128 | the delete button hands on the todo's id alone |

## Left out

- Cryptography: PBKDF2, AES-CBC with PKCS#7 padding, SHA-256, Base64 and UTF-8 are a `Primitives` value of functions. Their round trips are requirements on that value, and the random salt, IV and password bytes are parameters.
- The clock and fresh identifiers: `new Date()` is the parameter `now`, and `uuidv4`/`crypto.randomUUID` are identifiers passed in.
- Time zones: the model runs in UTC. A reminder is read as local time (src/utils/todoParser.ts:74) but written with `toISOString` (src/utils/todoParser.ts:163), so it reads back unchanged only in a UTC zone.
- `Date` parsing follows ECMAScript: out-of-range fields give an invalid date. V8 reads day 29-31 in any month and rolls it over into the next month; that is not modelled.
- `localeCompare` is code-point order, `toLowerCase` is ASCII case folding, and `toLocaleString`/`toLocaleDateString` rendering (src/components/TodoItem.tsx:53-55) is not modelled.
- Key/value records are association lists in insertion order. JavaScript's rule that integer-like keys come first in `Object.entries` is not modelled, and the same holds for the statistics records.
- Timers: `setTimeout`/`clearTimeout` are records of pending timers with the time each runs, and `Tick(now)` runs those due in the event loop's order. Real concurrency, the browser `Notification` permission flow (src/services/reminderService.ts:78-88), the Electron notification call and `console.warn` are not modelled.
- Reminders.ReminderService.ScheduleReminder: the branch that notifies at once for an overdue reminder (src/services/reminderService.ts:30-35) cannot be reached after the five-minute check. It is kept as a branch that is proved dead.
- File I/O, dialogs, menus and the Electron bridge (`window.electronAPI`, `openFile`, the `fileLoaded`/save request listeners) are not part of this model. `loadFile`'s content and `saveFile`'s written text are parameters and results.
- React effects run synchronously right after the handler that triggers them. Stale closures and render batching are not modelled.
- The add form's `minDateTime` refresh every minute (src/components/TodoForm.tsx:25-39) only sets the date picker's lower bound and is not modelled.
- StatsPanelMui.ComputeStats: the floating-point `completionRate` (src/components/StatsPanel_MUI.tsx:32) is not computed.
- StatsPanel.CompletionPercentage: the percentage is the exact share rounded half up. The panel computes `completed / total * 100` in binary floating point (src/components/StatsPanel.tsx:46), which can fall just below an exact half: 23 of 40 gives 57.49999999999999 and so 57 there, 58 here; 29, 57, 113 and 115 of 200 differ the same way.
- StatsPanel.RoundedShare: it is about the exact share; the floating-point rounding above is not modelled.
- StatsPanel.BumpCounts: a name that an object inherits, such as `constructor` or `toString` (src/components/StatsPanel.tsx:24, 31), starts from that inherited value, so `acc["constructor"] || 0` is a function and the count becomes text; a name `__proto__` is not stored at all. The model counts every name from 0.
- Todo.PutSpec: a key `__proto__` is stored like any other. On the plain object of src/utils/todoParser.ts:66 that assignment sets the prototype and stores nothing, so such a pair is lost.
- EditTodoModal.SaveUntouched: it states the untouched save for the fields with marked names (`EditTodoModal.MarkedFields`). For the fields as the dialog fills them, see `EditTodoModal.SaveUntouchedAsWritten` and the findings.
- FormTokens.Words: it drops the empty pieces that `split(/\s+/)` gives for leading or trailing whitespace. Such a piece never starts with `+` or `@`, so the names read are the same.
- TodoFormMui.Form.HandleSubmit: a priority left empty is `None`, where the source leaves the key out of the object.
- RoundTrip.WrittenItemReadsBack: besides the usual conditions (no reminder, no priority on a completed item, a completion date whenever a completed item has a creation date), it requires the following.
  - The text is free of `+`, `@` and `:`.
  - Names and values are free of whitespace, `+`, `@` and `:`.
  - Keys are distinct word characters.
  - Dates have four-digit years.
  - Dates come back as the start of their day.
- The rendering-only components, the theme files, the auto-updater, the other window variants (`App.tsx`, `App_MUI.tsx`, `App_Simple.tsx`) and `TodoItem_MUI.tsx` are not part of this model. The variants repeat the logic modelled here.

## Findings

| source | as written | input that shows it | evidently intended | confidence | as-written member | corrected member |
|---|---|---|---|---|---|---|
| src/components/EditTodoModal_MUI.tsx:39-40 | The project and context fields are filled with `todo.projects.join(' ')` and `todo.contexts.join(' ')`, which drop the markers. `handleSave` (lines 91-101) keeps only words that start with `+` or `@`, so saving a todo without touching those fields clears its projects and contexts. The same holds in src/components/EditTodoModal.tsx:21-22 and 38-39. | A todo with projects `["work"]`, opened and saved unchanged: the field reads `work`, which is read back as `[]`. | The fields hold `+work` and `@home`, so an untouched save keeps the names. | high, not executed | EditTodoModal.SaveUntouchedAsWritten | EditTodoModal.SaveUntouched |
| src/services/reminderService.ts:37-48 | The guard accepts delays up to thirty days, 2,592,000,000 ms, and passes the delay to `setTimeout`. `setTimeout` reads its delay as a signed 32-bit number, so any delay above 2,147,483,647 ms (about 24.8 days) wraps below zero and the timer runs at once. | `now` = 0 and a reminder at 2,160,000,000 ms (25 days): it passes the guard, and its notification shows the moment it is scheduled. | Reminders further ahead than `setTimeout` can wait are not scheduled (or are re-armed later), so no reminder shows early. | high, not executed | Reminders.TwentyFiveDaysRunsAtOnce | Reminders.WithinTimeoutRunsOnTime |

`EditTodoModal.OpenedFields` fills the fields as the dialog does, and the dialog class uses it. `EditTodoModal.MarkedFields` is the corrected filling, and `EditTodoModal.SaveUntouched` proves that with it an untouched save keeps every name. The scheduler likewise keeps the source's thirty-day guard and the 32-bit wait. `Reminders.SchedulesWithinTimeout` is the corrected guard, and `Reminders.WithinTimeoutRunsOnTime` proves that every timer it lets through runs on time.
