# RevenuerManager in Dafny

A model of the core of RevenuerManager. RevenuerManager simulates one day of a computer club that has N identical tables.

## What it does

The program reads a three-line header:

- the number of tables;
- the opening and closing times, as `HH:MM HH:MM`;
- the hourly rate.

It then reads one client action per line: `HH:MM kind client [table]`. The kinds are:

- 1, arrive;
- 2, take a table;
- 3, wait;
- 4, leave.

Each accepted line is echoed to a buffer. The reactions the engine generates go to the same buffer:

- `11`, a forced leave;
- `12`, a client seated from the wait queue;
- `13`, an error such as `NotOpenYet`, `YouShallNotPass`, `ClientUnknown`, `PlaceIsBusy` or `ICanWaitNoLonger!`.

At closing time every remaining client is forced out in ascending order of client name. The program then writes:

- the opening time;
- the buffer;
- the closing time;
- one `n revenue HH:MM` line per table.

Every started hour of a stay is billed at the hourly rate. A fatal error (a malformed line, an event earlier than the last one, a table that does not exist) produces no output at all. Its message is the offending line.

## The model, by layer

- **The cursor.** `CharSources.CharSource` is a class with the fields `data`, `pos` and `lineBegin`.
  - `Next` moves the cursor.
  - `HasNext` tests whether characters remain.
  - `Error` gives the text of the current line.
- **The lookahead scanner.** `BaseParsers.BaseParser` keeps the lookahead character over a `CharSource`.
  - It also keeps a ghost lookahead index, because the source's own state cannot tell a NUL that was read from the end of the text.
  - `Take`, `TakeIf` (the source's `take(c)`) and `Expect` change that state.
  - `Current`, `Test`, `End` and `Between` are read-only functions.
- **The grammars.** Each grammar is specified by pure step functions over the text and a lookahead index (`Grammar`, `InputEvents`, `ManagerData`). A step either parses a value and gives the next index, or fails at an index. The error is the line that holds that index.
  - The two parser classes `InputEvents.EventParser` and `ManagerData.RevenuerManagerDataParser` follow the source's methods one for one.
  - Their loops (`ParseClientId`, `ParseFixedLengthNumber`, `GetNumber`, `ParseUnsignedInt`) are `while` loops with invariants.
  - Each method is proved to follow its step function.
- **Printing.** `EventFormat` holds `formatTime` and `to_string`, with the round trips between printing and parsing in both directions.
- **The engine.** `RevenuerManagers.RevenuerManager` is a class that keeps the state of the source's object:
  - the client-to-table map;
  - the busy-since list, with -1 for a free table;
  - the free-table count;
  - the wait queue;
  - the per-table statistics;
  - the queue of generated reactions;
  - the deferred event;
  - the last accepted time.

  The handlers update that state in place. The input is a sequence of lines, and the output and the buffer are sequences of strings. A `std::map` iterator becomes the client name, and iteration over the map follows ascending key order (`StringOrder`).
- **Class invariants.** `Core`/`TablesOk`/`SeatsOk` state:
  - the free count equals the number of free slots;
  - every busy table has exactly one owner, and every seated client's table is busy;
  - no slot started after the last accepted time;
  - the wait queue is never longer than the number of tables.

  `GeneratedOk` states that the reaction queue holds one reaction of a handler, or a batch of forced leaves of distinct present clients.

- **The reference run.** `ClubRun` restates the engine as pure functions over a `Club` record that holds the same state, plus the input position and the buffer. `RevenuerManager.Snap()` reads the object's fields into that record.
  - Each handler has a step function: `ArriveStep`, `TakeTableStep`, `WaitStep`, `LeaveStep`, `DispatchStep`, `InputStep` and `ReactStep`. The table operations have `UnsetStep`, `SeatStep`, `RemoveStep` and `KickStep`.
  - `Turn` is one pass of the `process()` loop. `Run` repeats turns until the loop ends, and records what each turn buffered. `Simulate` is the whole program.
  - Every method of the class ensures that its new state is the step function applied to its old state. `ProcessEvents` ends as `Run` does, and `Process` outputs what `Simulate` gives.
  - The properties of the whole run are lemmas about `Run`: what it buffers (`RunWrites`), how it stops (`RunStops`), that statistics never decrease (`RunGrows`), and that it ends at all (`TurnProgress`).
  - The step functions are total. `UnsetStep` bills only a table that `Billable` finds, and `SeatStep` seats only at a table that exists. The engine never reaches the other cases: its invariant `Core` rules them out.

Where the engine's loop and switch are long, they are split into methods that follow the branches of the source:

- `Process` → `ProcessEvents` → `TakeTurn` → `ProcessFrontReaction` / `ProcessDeferredEvent` / `ProcessNextLine` → `ProcessLine`;
- `Initialize` → `ReadHeader`, `Configure`, `OpenTables`;
- the switch of `processInputEvent` → `Dispatch`, and its closing branch → `DeferAndClose`;
- the loop of `kickOutLeftClients` → `QueueEvictions`;
- the writes at the end of `setClientToTable` and `unsetClientFromTable` → `Occupy` and `FreeTable`.

Behaviour of the source that the model keeps as it is:

- A NUL character in a line ends parsing there, as the end of input does (`BaseParser::end` tests the lookahead against 0).
- An empty input line is handled like the end of input. While clients are present, it queues a forced leave at closing time for each of them, and reading goes on. With no client present, it ends the loop.
- The header accepts leading zeros in its numbers.
- The header does not check that opening comes before closing.
- The header parser ignores anything after the rate that does not start with a digit.
- The wait queue may name the same client twice, or a client who has already left.

## Model

| member | source | states |
|---|---|---|
| Decimal.ValueOfNatText | src/RevenuerManager.cpp:151-152 | the decimal rendering of a number reads back as that number |
| Decimal.NatTextOfValue | src/types/InputEvent.cpp:126-145 | a digit string with no leading zero is the rendering of its own value |
| Decimal.PaddedTwoDigits | src/RevenuerManager.cpp:20-22 | any two-digit field is the zero-padded two-digit rendering of its value |
| CharSources.CharSource.constructor | src/base_parser/CharSource.cpp:5-7 | a new cursor starts at position 0, on line 0, over the given text |
| CharSources.CharSource.Next | src/base_parser/CharSource.cpp:13-23 | before the end, returns the character at pos and advances pos by exactly one; lineBegin moves to pos only when that character follows a newline; at the end, returns NUL and changes nothing; the invariant pos ≤ \|data\|, with lineBegin the start of the current line, is kept |
| CharSources.CharSource.Error | src/base_parser/CharSource.cpp:30-47 | returns the line that holds the last character handed out, from its start up to the next newline, NUL or end of text; it changes nothing |
| CharSources.LineTextIsWholeLine | src/base_parser/CharSource.cpp:30-47 | the error text is a slice of the data that starts at a line start, stops at a newline, NUL or the end, and holds no newline |
| CharSources.LineTextOfJoin | src/RevenuerManager.cpp:109-132 | any position in header text built from plain lines yields exactly one of those lines as its error text |
| BaseParsers.BaseParser.constructor | src/base_parser/BaseParser.cpp:4-14 | construction primes the lookahead with the first character, or with NUL for empty input |
| BaseParsers.BaseParser.Current | src/base_parser/BaseParser.cpp:16-19 | the lookahead is the character at the lookahead index, or NUL past the end |
| BaseParsers.BaseParser.Test | src/base_parser/BaseParser.cpp:21-24 | true exactly when the lookahead equals the given character |
| BaseParsers.BaseParser.End | src/base_parser/BaseParser.cpp:26-29 | true exactly when the input is used up or the lookahead is a NUL character |
| BaseParsers.BaseParser.Between | src/base_parser/BaseParser.cpp:57-60 | inclusive range test on the lookahead |
| BaseParsers.BaseParser.Take | src/base_parser/BaseParser.cpp:31-37 | returns the old lookahead and advances by one; at the end it keeps returning NUL and stays there |
| BaseParsers.BaseParser.TakeIf | src/base_parser/BaseParser.cpp:39-46 | advances exactly when the lookahead equals the character and reports whether it did; otherwise the cursor is untouched |
| BaseParsers.BaseParser.Expect | src/base_parser/BaseParser.cpp:48-55 | consumes a matching character; succeeds without consuming at the end of input; otherwise fails with the current line |
| BaseParsers.BaseParser.Error | src/base_parser/BaseParser.cpp:62-65 | the error is the line of the lookahead index, read from the underlying cursor |
| Grammar.FixedNumberAt | src/types/InputEvent.cpp:109-124 | a fixed-length number is exactly that many digits, and its value is their decimal value |
| Grammar.HourAt | src/types/InputEvent.cpp:57-66 | an accepted hour is at most 23 |
| Grammar.MinuteAt | src/types/InputEvent.cpp:68-77 | an accepted minute is at most 59 |
| Grammar.TimeAtAccepts | src/types/InputEvent.cpp:48-55 | an accepted time is two digits, ':', two digits, with hour ≤ 23 and minute ≤ 59; its value is hour*60+minute < 1440 and it takes five characters |
| Grammar.TimeAtOfFields | src/types/InputEvent.cpp:48-77 | conversely, every such five-character field parses to hour*60+minute |
| InputEvents.TypeAt | src/types/InputEvent.cpp:79-88 | an accepted kind is one character with value 1 to 4 |
| InputEvents.NumberAt | src/types/InputEvent.cpp:126-145 | an accepted table number is at least 1 |
| InputEvents.EventParser.constructor | src/types/InputEvent.cpp:14-16 | the parser starts at the beginning of the line |
| InputEvents.EventParser.Parse | src/types/InputEvent.cpp:18-27 | the result is the line's parse: the event, or the error line, and an error when input is left over after the event |
| InputEvents.EventParser.ParseEvent | src/types/InputEvent.cpp:30-46 | follows the event grammar: time, one space, kind, one space, client, and for kind 2 one space and a table number stored minus one |
| InputEvents.EventParser.ParseClientPart | src/types/InputEvent.cpp:38-43 | follows the grammar of the client id and of the table argument that only kind 2 has |
| InputEvents.EventParser.ParseTableArg | src/types/InputEvent.cpp:40-43 | one space, then a table number, stored minus one |
| InputEvents.EventParser.ParseTime | src/types/InputEvent.cpp:48-55 | follows the time grammar: hour, ':', minute, value hour*60+minute |
| InputEvents.EventParser.ParseHour | src/types/InputEvent.cpp:57-66 | two digits, at most 23, else the error line |
| InputEvents.EventParser.ParseMinute | src/types/InputEvent.cpp:68-77 | two digits, at most 59, else the error line |
| InputEvents.EventParser.ParseType | src/types/InputEvent.cpp:79-88 | one digit from 1 to 4, else the error line |
| InputEvents.EventParser.ParseClientId | src/types/InputEvent.cpp:90-107 | the maximal run of [a-z0-9_-]; an error when it is empty or is not followed by a space or the end |
| InputEvents.EventParser.ParseFixedLengthNumber | src/types/InputEvent.cpp:109-124 | reads exactly the given number of digits and returns their value, else the error line |
| InputEvents.EventParser.GetNumber | src/types/InputEvent.cpp:126-145 | a digit 1 to 9 followed by the maximal digit run, and its value |
| InputEvents.Get | src/types/InputEvent.cpp:150-155 | parsing a line gives exactly the line's parse result |
| InputEvents.ParseLineAccepts | src/types/InputEvent.cpp:18-46 | every accepted event has a time below 24:00 and a non-empty client id over [a-z0-9_-] |
| InputEvents.RejectedLineIsQuoted | src/types/InputEvent.cpp:18-27 | a rejected line without newline or NUL fails with exactly that line as its message |
| EventFormat.FormatTime | src/RevenuerManager.cpp:12-25 | for times under 100 hours: two digits, ':', two digits, whose values are hours and minutes |
| EventFormat.FormatTimeOfFields | src/RevenuerManager.cpp:12-25 | formatting the value of a valid HH:MM field gives back that field |
| EventFormat.TypeAtIff | src/types/InputEvent.cpp:79-88 | the kind is accepted exactly when the lookahead is '1' to '4', and then its value is that digit |
| EventFormat.ClientIdAtIff | src/types/InputEvent.cpp:90-107 | a client id is accepted exactly when it is a non-empty [a-z0-9_-] run ending at a space or the end of the line |
| EventFormat.NumberOfText | src/types/InputEvent.cpp:126-145 | the rendering of any positive number parses back to it |
| EventFormat.ParseEventText | src/RevenuerManager.cpp:27-48 | parsing the printed form of any well-formed event gives that event back |
| EventFormat.EventTextOfParse | src/types/InputEvent.cpp:18-46 | printing the event of any accepted NUL-free line gives that line back, so separators are single spaces and nothing follows the event |
| ManagerData.UintAt | src/types/RevenuerManagerData.cpp:41-60 | an unsigned number is accepted exactly when the lookahead is a digit; it takes the maximal digit run, leading zeros included, and its value |
| ManagerData.RevenuerManagerDataParser.constructor | src/types/RevenuerManagerData.cpp:12-14 | the parser starts at the beginning of the header |
| ManagerData.RevenuerManagerDataParser.Parse | src/types/RevenuerManagerData.cpp:16-38 | follows the header grammar: count ≥ 1, '\n', time, ' ', time, '\n', rate ≥ 1 |
| ManagerData.RevenuerManagerDataParser.ParseHours | src/types/RevenuerManagerData.cpp:26-35 | the part of the header after the count |
| ManagerData.RevenuerManagerDataParser.ParseUnsignedInt | src/types/RevenuerManagerData.cpp:41-60 | at least one digit, then the maximal digit run and its value |
| ManagerData.RevenuerManagerDataParser.ParseTime | src/types/RevenuerManagerData.cpp:62-69 | the same time grammar as an event time |
| ManagerData.RevenuerManagerDataParser.ParseHour | src/types/RevenuerManagerData.cpp:71-80 | two digits, at most 23 |
| ManagerData.RevenuerManagerDataParser.ParseMinute | src/types/RevenuerManagerData.cpp:82-91 | two digits, at most 59 |
| ManagerData.RevenuerManagerDataParser.ParseFixedLengthNumber | src/types/RevenuerManagerData.cpp:93-108 | reads exactly the given number of digits and returns their value |
| ManagerData.Get | src/types/RevenuerManagerData.cpp:113-118 | parsing a header gives exactly the header's parse result |
| ManagerData.HeaderAccepts | src/types/RevenuerManagerData.cpp:16-38 | an accepted header has at least one table, a rate of at least 1, and both times below 24:00 |
| ManagerData.ParseHeaderOfLayout | src/types/RevenuerManagerData.cpp:16-38 | every text COUNT '\n' HH:MM ' ' HH:MM '\n' RATE, with positive count and rate, followed by anything not starting with a digit, is accepted with those values, even when opening is after closing |
| ManagerData.LayoutOfHeader | src/types/RevenuerManagerData.cpp:16-38 | conversely, every accepted header has exactly that layout |
| ManagerData.ZeroTablesRejected | src/types/RevenuerManagerData.cpp:20-24 | a table count of 0 is rejected with the count line as the message |
| StringOrder.SortedKeysOfAscending | src/RevenuerManager.cpp:368-375 | a strictly ascending sequence that holds exactly the keys of a map is the map's key order |
| StringOrder.SortedKeysAscending | src/RevenuerManager.cpp:370 | the map's key order is strictly ascending |
| ClubState.BilledHours | src/RevenuerManager.cpp:349 | the billed hours are the least whole number of hours that covers the stay |
| ClubState.CountFreeUpdate | src/RevenuerManager.cpp:338-356 | marking one slot busy or free changes the number of free slots by exactly one |
| ClubState.SeatKeepsSeats | src/RevenuerManager.cpp:328-339 | seating a client at a free table, after releasing the table it held, keeps "each busy table has exactly one owner" |
| ClubState.ArriveKeepsSeats | src/RevenuerManager.cpp:238 | adding an unseated client keeps the seating invariant |
| ClubState.RemoveKeepsSeats | src/RevenuerManager.cpp:359-366 | removing a client and freeing its table keeps the seating invariant |
| ClubState.FreshTables | src/RevenuerManager.cpp:134-140 | N free tables and no client satisfy the table invariant with a free count of N |
| ClubState.ArriveKeepsTables | src/RevenuerManager.cpp:238 | adding an unseated client keeps the table invariant |
| ClubState.SeatKeepsTables | src/RevenuerManager.cpp:328-339 | after seating, the free count is one less than after the release, and the table invariant holds |
| ClubState.RemoveKeepsTables | src/RevenuerManager.cpp:359-366 | after removal the free count still counts the free slots, and the table invariant holds |
| ClubState.ReleasedGrows | src/RevenuerManager.cpp:351-352 | billing a release never decreases any table's revenue or used time |
| ClubState.EvictionsShape | src/RevenuerManager.cpp:368-375 | the closing evictions are one forced leave per client, in key order, with no client twice |
| ClubState.EvicteesOfEvictions | src/RevenuerManager.cpp:368-375 | the clients forced out at closing are exactly the clients listed |
| RevenuerManagers.RevenuerManager.constructor | src/RevenuerManager.cpp:54-59 | a new engine has read nothing, written nothing and holds no client, reaction or deferred event |
| RevenuerManagers.RevenuerManager.GetLine | src/RevenuerManager.cpp:85 | reads the next input line, or reports the end of the input |
| RevenuerManagers.RevenuerManager.ReadHeader | src/RevenuerManager.cpp:111-130 | the header text is the first three lines, or fewer when the input is shorter, each followed by '\n' |
| RevenuerManagers.RevenuerManager.Initialize | src/RevenuerManager.cpp:109-143 | fails exactly when the header is rejected, with the header parser's message and nothing written; otherwise the configuration is the parsed header, all tables are free with zero statistics, and the opening time is buffered |
| RevenuerManagers.RevenuerManager.Configure | src/RevenuerManager.cpp:134-142 | installs the header values, opens N free tables with zero statistics, and buffers the opening time, establishing the invariant |
| RevenuerManagers.RevenuerManager.OpenTables | src/RevenuerManager.cpp:139-140 | N zeroed statistics, N free slots, a free count of N |
| RevenuerManagers.RevenuerManager.Finalize | src/RevenuerManager.cpp:145-154 | the output is the buffer, then the closing time, then one `i+1 revenue HH:MM` line per table in table order |
| RevenuerManagers.RenderStats | src/RevenuerManager.cpp:150-153 | the statistics lines are one `i+1 revenue HH:MM` line per table, in table order |
| RevenuerManagers.RevenuerManager.UnsetClientFromTable | src/RevenuerManager.cpp:341-357 | for a seated client, adds the billed hours times the rate to the revenue and the stay to the used time, frees the slot and increments the free count; for an unseated client, changes nothing; the free count still counts free slots; the new state is `UnsetStep` of the old |
| RevenuerManagers.RevenuerManager.FreeTable | src/RevenuerManager.cpp:351-356 | stores the new statistic, frees the slot and increments the free count, changing nothing else |
| RevenuerManagers.RevenuerManager.SetClientToTable | src/RevenuerManager.cpp:328-339 | first releases and bills any table the client held, then marks the new table busy from now, records the mapping and decrements the free count; the class invariant is kept; the new state is `SeatStep` of the old |
| RevenuerManagers.RevenuerManager.Occupy | src/RevenuerManager.cpp:335-338 | marks the table busy from now, records the mapping and decrements the free count, changing nothing else |
| RevenuerManagers.RevenuerManager.RemoveClient | src/RevenuerManager.cpp:359-366 | bills and frees the client's table if it had one, then erases the client; the invariant is kept; the new state is `RemoveStep` of the old |
| RevenuerManagers.RevenuerManager.KickOutLeftClients | src/RevenuerManager.cpp:368-375 | queues one forced leave at closing time for every present client, in ascending name order, changing nothing else; the new state is `KickStep` of the old |
| RevenuerManagers.RevenuerManager.QueueEvictions | src/RevenuerManager.cpp:368-375 | appends one forced leave at closing time per present client, in strictly ascending name order, each client exactly once, changing nothing else |
| RevenuerManagers.RevenuerManager.EvictionsOk | src/RevenuerManager.cpp:368-375 | a queue of closing evictions for all present clients satisfies the reaction-queue invariant and covers every client |
| RevenuerManagers.RevenuerManager.ProcessClientArrive | src/RevenuerManager.cpp:216-239 | NotOpenYet before opening or from closing on; otherwise YouShallNotPass for a present client; otherwise the client is added unseated; nothing else changes; the new state is `ArriveStep` of the old |
| RevenuerManagers.RevenuerManager.ProcessClientTakeTable | src/RevenuerManager.cpp:241-268 | ClientUnknown for an absent client; a fatal error for a table that does not exist; PlaceIsBusy for an occupied table, even one the client holds; otherwise the client is seated as SetClientToTable states; `TakeTableStep` of the old state is the new state, or nothing for the fatal error |
| RevenuerManagers.RevenuerManager.ProcessClientWait | src/RevenuerManager.cpp:270-300 | ClientUnknown for an absent client; ICanWaitNoLonger! while a table is free; a forced leave when the queue already holds one client per table; otherwise the client joins the queue, which never outgrows the number of tables; the new state is `WaitStep` of the old |
| RevenuerManagers.RevenuerManager.ProcessClientLeave | src/RevenuerManager.cpp:302-326 | ClientUnknown for an absent client; if the leaver held a table and the queue is not empty, a seat-from-queue reaction for the queue head at that table, and the head is popped; the leaver is then billed and removed; the new state is `LeaveStep` of the old |
| RevenuerManagers.RevenuerManager.ProcessInputEvent | src/RevenuerManager.cpp:177-214 | a Leave exactly at closing goes through; any other event from closing on, while clients are present, is deferred and every client is queued to be forced out at closing; an event earlier than the last accepted one is fatal; otherwise the time is accepted and the event dispatched; `InputStep` of the old state is the new state, or nothing when it fails; no table's revenue or used time decreases |
| RevenuerManagers.RevenuerManager.DeferAndClose | src/RevenuerManager.cpp:180-185 | stores the event as deferred and queues a forced leave at closing time for every present client; the new state is `KickStep` of the old one with the event deferred |
| RevenuerManagers.RevenuerManager.Dispatch | src/RevenuerManager.cpp:193-213 | passes the event to the handler of its kind; it fails only for a present client asking for a table that does not exist, and then changes no table; `DispatchStep` of the old state is the new state, or nothing on failure |
| RevenuerManagers.RevenuerManager.ProcessGeneratedEvent | src/RevenuerManager.cpp:156-175 | buffers the reaction's `HH:MM 11/12/13 ...` line; a forced leave bills and removes the client; a seat-from-queue seats the client at the freed table; an error changes nothing else; the new state is `ReactStep` of the old |
| RevenuerManagers.RevenuerManager.Write | src/RevenuerManager.cpp:95 | appends one line to the buffer and changes nothing else |
| RevenuerManagers.RevenuerManager.Process | src/RevenuerManager.cpp:61-107 | a rejected header fails with the header line; any failure leaves the output empty; a finished run outputs the opening time, the buffer, the closing time and one statistics line per table, with every client gone; a failure message is one of the input lines; the outcome and the output are those of `Simulate` |
| RevenuerManagers.RevenuerManager.ProcessEvents | src/RevenuerManager.cpp:63-104 | the loop ends; when it finishes normally no client, reaction or deferred event is left and no table's statistics decreased; a fatal message is one of the input lines; the outcome, and on a normal end the final state, are those of `Run` from the starting state |
| RevenuerManagers.RevenuerManager.TakeTurn | src/RevenuerManager.cpp:63-104 | one turn of the loop: a reaction if one is queued, else the deferred event, else the next line; whether the loop goes on, the outcome it ends with, and the new state are those of `Turn` |
| RevenuerManagers.RevenuerManager.ProcessFrontReaction | src/RevenuerManager.cpp:65-70 | the oldest reaction is carried out and popped before anything else; the result is undefined exactly when it seats a client who is gone; the new state and the buffered reaction are those of `Turn` |
| RevenuerManagers.RevenuerManager.ProcessDeferredEvent | src/RevenuerManager.cpp:72-81 | the deferred event is processed after the reactions and before the next line, and is cleared; a failure quotes the event's printed form; the new state, or the failure, is that of `Turn` |
| RevenuerManagers.RevenuerManager.ProcessNextLine | src/RevenuerManager.cpp:83-103 | the loop stops exactly when the line is empty or the input is exhausted and no client is present; an empty line or the end of input with clients present queues forced leaves for them and goes on; another line is processed as ProcessLine states; the new state, or the failure, is that of `Turn` |
| RevenuerManagers.RevenuerManager.ProcessLine | src/RevenuerManager.cpp:95-103 | echoes the line to the buffer, then parses it; a parse error fails with the parser's message; otherwise it fails, with the line itself, exactly when `InputStep` of the state with the line buffered fails, and else the new state is that step's |
| RevenuerManagers.RevenuerManager.PopReaction | src/RevenuerManager.cpp:68 | removing the front reaction keeps the reaction-queue invariant for the rest |
| RevenuerManagers.HeaderErrorQuoted | src/RevenuerManager.cpp:109-132 | a rejected header's message is one of the first input lines, or empty for empty input |
| ClubRun.UnsetSeated | src/RevenuerManager.cpp:341-357 | unsetting a seated client whose table is busy since no later than now bills that table by the started hours and frees it |
| ClubRun.UnsetGrows | src/RevenuerManager.cpp:341-357 | unsetting a client never lowers any table's revenue or used time |
| ClubRun.KickedAllDue | src/RevenuerManager.cpp:368-375 | after the closing evictions are queued, every present client is due to be forced out |
| ClubRun.KickedInOrder | src/RevenuerManager.cpp:368-375 | queuing forced leaves for exactly the present clients in ascending order is the closing step `KickStep` |
| ClubRun.DispatchFramed | src/RevenuerManager.cpp:193-213 | a handler keeps the input position, the buffer and the deferred event |
| ClubRun.InputShape | src/RevenuerManager.cpp:177-214 | processing an event keeps the input position and the buffer, and defers the event only when it queues the closing evictions |
| ClubRun.ReactShape | src/RevenuerManager.cpp:156-175 | a reaction buffers exactly its own line, keeps the input position, the queue and the deferred event, and removes at most its own client |
| ClubRun.InputFatal | src/RevenuerManager.cpp:177-262 | processing an event fails exactly when it does not close the day and it is earlier than the last accepted event, or a present client asks for a table that does not exist |
| ClubRun.InputGrows | src/RevenuerManager.cpp:177-214 | processing an event never lowers any table's revenue or used time |
| ClubRun.ReactGrows | src/RevenuerManager.cpp:156-175 | carrying out a reaction never lowers any table's revenue or used time |
| ClubRun.ReadTurn | src/RevenuerManager.cpp:83-103 | with nothing queued or deferred, a non-empty line is buffered, parsed and processed; a parse error carries the parser's message, a processing error the line |
| ClubRun.BlankTurn | src/RevenuerManager.cpp:83-92 | with nothing queued or deferred, an empty line or the end of input queues forced leaves while clients are present, and otherwise ends the loop |
| ClubRun.TurnProgress | src/RevenuerManager.cpp:63-104 | every turn that goes on reads a line, takes up the deferred event, queues the closing evictions or takes a reaction off the queue, so the loop ends |
| ClubRun.RunUnfold | src/RevenuerManager.cpp:63-104 | a run is its first turn followed by the run from where that turn leads |
| ClubRun.RunNext | src/RevenuerManager.cpp:63-104 | a turn that goes on leaves the run's outcome and final state unchanged |
| ClubRun.RunHalt | src/RevenuerManager.cpp:63-104 | a turn that ends the loop decides the run's outcome and final state |
| ClubRun.TurnGrows | src/RevenuerManager.cpp:63-104 | no turn lowers any table's revenue or used time |
| ClubRun.RunGrows | src/RevenuerManager.cpp:63-104 | over a run that ends normally, no table's revenue or used time ever decreases |
| ClubRun.TurnWrites | src/RevenuerManager.cpp:63-104 | a turn appends exactly the lines of its log to the buffer, and its log echoes exactly the non-empty input lines it read; the turn that ends the loop buffers nothing |
| ClubRun.TextsCompose | src/RevenuerManager.cpp:95 | the buffered lines of two stretches of a run, one after the other, are those of the joined log |
| ClubRun.EchoesCompose | src/RevenuerManager.cpp:83-95 | two stretches of a run echo the non-empty lines of both stretches of input |
| ClubRun.RunWrites | src/RevenuerManager.cpp:63-104 | a run that ends normally has buffered the non-empty input lines it read, in order, interleaved with the lines of the reactions it carried out, and nothing else |
| ClubRun.TurnStops | src/RevenuerManager.cpp:85-92 | the turn that ends the loop normally read an empty line or nothing, with no client, reaction or deferred event left |
| ClubRun.RunStops | src/RevenuerManager.cpp:63-92 | a run ends normally only at an empty line or at the end of the input, with no client, reaction or deferred event left |
| ClubRun.SimulateSilent | src/RevenuerManager.cpp:61-107 | the program outputs nothing unless it ends normally, and it ends normally only after a header it accepts |
| ClubRun.SimulateOutput | src/RevenuerManager.cpp:61-107 | a normal end outputs the opening time, the lines of the run's log, the closing time and one statistics line per table |

## Left out

- src/main.cpp (arguments, opening files, exit codes, printing the message) and the logging in include/log.hpp and src/log.cpp are not part of this model. They hold no club logic.
- Stream mechanics (`getline`, `std::endl`, `setw`, `setfill`) are left out. The input is a sequence of lines and the output a sequence of strings, and `formatTime` is an explicit two-digit rendering.
- The `[ERROR] ...` text of the internal exceptions is not modelled. `process` always replaces it with the offending line, and the model returns that line directly.
- Integer width is not modelled. Table numbers, revenues, used times and header numbers are unbounded naturals here. That changes behaviour in these cases:
  - A table's `revenue` and `used_time` are `uint` (include/RevenuerManager.hpp:34-35), so the source wraps them modulo 2^32. The model never wraps, so its revenue can exceed 2^32 - 1.
  - A table number goes through `std::stoul` and is returned as a `uint` (src/types/InputEvent.cpp:126-145). A number beyond the `unsigned long` range makes the source fail to parse the line, and one beyond 32 bits is truncated modulo 2^32. The model keeps the number as it is. It then names a table that does not exist, unless the truncation lands on an existing table in the source. For a present client, a table that does not exist ends the run with the line as the fatal message. For an absent client, the model reports ClientUnknown where the parse error would end the run.
  - The number is then stored minus one in a `uint` (include/types/InputEvent.hpp:22, src/types/InputEvent.cpp:42). Only a truncated value of 0 wraps there, to 2^32 - 1, which is no table. A number written as 0 cannot occur: the grammar wants a first digit from 1 to 9.
  - The header count and rate go through `std::stoul` (src/types/RevenuerManagerData.cpp:55-59) into `unsigned int`. The source rejects a value beyond the `unsigned long` range and truncates one beyond 32 bits; the model accepts both unchanged.
- Undefined behaviour is not reproduced. A client waiting in the queue may leave and stay in the queue, and a later seat from the queue then dereferences a map iterator that does not point at a client. The model stops with `Outcome.Undefined` at that point.
- `CharSource::error` reads the character at `data.size()` without a bound check. The model stops the line scan at the end of the text, which is where a terminated buffer stops it too.
- CharSources.CharSource.HasNext is a predicate equal to `pos < |data|` with no contract of its own. It has no row for that reason.
- EventFormat.FormatTime: the contract covers times under 100 hours, where the fields have two digits. Longer times would print three or more hour digits, and no contract is stated for them.
- RevenuerManagers.RevenuerManager.Process: "the failure message is one of the input lines" is proved only when no input line holds a newline or a NUL character, as lines read with `getline` from a text file do not.
- RevenuerManagers.RevenuerManager.KickOutLeftClients: there are no map iterators. The loop takes the least remaining key of the map each time. The resulting order is a ghost result, which StringOrder.SortedKeysOfAscending ties to `std::map` order.
- The wait queue is not cleared when a queued client leaves or is forced out, as in the source. No property about duplicate or stale queue entries is stated beyond the undefined outcome above.
