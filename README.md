# TON Station bot, modelled in Dafny

The TON Station bot reads a file of Telegram credential lines. It then loops
forever. In each round it does the following for every account in turn:

- it takes the user descriptor out of the line;
- it logs in;
- it looks at the account's farm, then starts a farm or claims it and starts
  a new one;
- it starts and claims every quest that is not on its skip list;
- it pauses for one second.

After the last account it counts down 480 minutes, one second at a time.

The model follows the bot's own structure:

- `DataFile` (datafile.dfy) holds the pure text handling. It turns the file's
  text into credential lines (`replace(/\r/g, '')`, `split('\n')`,
  `filter(Boolean)`). It also takes out the `user=` segment the way
  `split('user=')[1].split('&')[0]` does.
- `Planner` (planner.dfy) holds the bot's decisions as functions. The remote
  service's answers and the clock are inputs (`Replies`, `Env`). The output is
  the sequence of calls the bot issues (`Call`: requests, the pause after an
  account, and countdown ticks), and whether the run ended with an uncaught
  error (`Outcome`).
- `TonStationClient` (client.dfy) holds the class `TonStation`. Its methods
  mirror the class in main.js. Every request appends one `Call` to the field
  `calls`. `main`, the round over the accounts, the quest loop and the
  countdown are methods with loops; the farm branch is a method with the
  source's conditionals. Each is proved to issue exactly the calls that the
  planner's functions give.

Behaviour the model follows from the code:

- A line that does not parse ends the whole run, not only that account. This
  happens when it has no `user=`, or when its descriptor does not decode. The
  exception leaves `main` and the process exits (main.js:190, 243-246). The
  accounts before that line have already been served. Later accounts and the
  countdown never happen.
- The data file is read once, before the endless loop (main.js:182-187). Every
  round uses the same lines.
- A farm-status request that fails returns `undefined`. The bot takes that as
  "no farm" and starts one (main.js:85-87, 202, 213-215).
- The farm is claimed only when the current time is strictly later than its
  end time (main.js:207). An end time that luxon cannot parse is an invalid
  date. No comparison holds for it, so the bot waits.
- The countdown shows every value from 28800 down to 0 inclusive: 28801 ticks
  (main.js:50, 237).

## Model

| member | source | states |
|---|---|---|
| DataFile.RemoveCR | main.js:183 | the result holds no carriage return and only characters of the input |
| DataFile.RemoveCRKeeps | main.js:183 | text without carriage returns is unchanged |
| DataFile.Split | main.js:184 | splitting at a line feed gives at least one piece; no piece holds the separator; every character of a piece comes from the text |
| DataFile.JoinSplit | main.js:184 | the pieces joined again with the separator give back the text, so splitting loses nothing |
| DataFile.SplitJoin | main.js:184 | separator-free pieces joined with the separator split back into exactly those pieces |
| DataFile.NonEmpty | main.js:185 | `filter(Boolean)` keeps exactly the non-empty lines: every result is non-empty and from the input, and every non-empty input line is kept |
| DataFile.NonEmptyConcat | main.js:185 | dropping empty lines distributes over concatenation, so the kept lines stay in their order and each is kept as often as it occurs |
| DataFile.NonEmptyKeeps | main.js:185 | a list without empty lines is left as it is |
| DataFile.Normalise | main.js:182-185 | every credential line is non-empty and holds neither a carriage return nor a line feed |
| DataFile.NormaliseLines | main.js:182-185 | a file written as lines joined by line feeds gives back its non-empty lines, in order |
| DataFile.NormaliseCRLF | main.js:182-185 | a file with Windows line endings gives the same credential lines as with Unix ones |
| DataFile.NormaliseIdempotent | main.js:182-185 | writing the credential lines back to a file and reading it again gives the same lines |
| DataFile.IndexOf | main.js:190 | the first occurrence of a pattern at or after a position; None exactly when there is none |
| DataFile.Before | main.js:190 | element 0 of a split: the longest prefix of the text in which no occurrence of the pattern starts; it ends at the text's end or where the pattern occurs |
| DataFile.UserSegment | main.js:190 | the `user=` segment of a line: none exactly when the line has no `user=`; otherwise a text with no `&` |
| DataFile.BeforeCuts | main.js:190 | element 0 of splitting at `user=` and then at `&` is the longest prefix with no `&` and no `user=` |
| DataFile.UserSegmentSpec | main.js:190 | no segment exactly when the line has no `user=`; otherwise the segment is the text after the first `user=`, cut at the next `&` or `user=` |
| DataFile.CutUnique | main.js:190 | that cut is unique |
| DataFile.UserSegmentOfLine | main.js:190 | a line built from a prefix without `user=`, then `user=`, a descriptor and a delimiter yields exactly that descriptor |
| Planner.Ticks | main.js:49-56 | the ticks of a countdown from `from` down to `downTo`: `from - downTo + 1` of them, none when `from < downTo`, the first showing `from` and the last `downTo` |
| Planner.TicksShape | main.js:49-56 | every tick shows a value between `downTo` and `from`; the values strictly decrease; every value of that range is shown |
| Planner.CountdownLength | main.js:237 | the wait between rounds is 28801 ticks, from 28800 down to 0, showing every value of that range |
| Planner.FarmActions | main.js:201-216 | the farm calls after the status request: at most two, each a start or a claim for the account's user, and the last one a start |
| Planner.FarmNoneStarts | main.js:213-215 | with no farm status, because the request failed or the list is empty, the bot starts exactly one farm and claims nothing |
| Planner.FarmExpiredClaimsThenStarts | main.js:202-209 | when the current time is strictly past the first farm's end, the bot claims that farm by its id and then starts one |
| Planner.FarmRunningWaits | main.js:207-212 | when the first farm has not ended, including `now == timeEnd`, or its end time is invalid, no farm call is made |
| Planner.FarmOnlyFirst | main.js:203 | only the first farm of the list decides |
| Planner.FarmActionsRespectService | main.js:201-216 | a claim happens only for the first farm once it has expired; a start happens exactly when there is no farm or it has expired; at most two farm calls |
| Planner.Kept | main.js:220-224 | the listed quests that are not skipped, in list order; never more than the list |
| Planner.KeptMembers | main.js:220-224 | the quests acted on are exactly the listed ones whose id is not on the skip list |
| Planner.KeptConcat | main.js:220-224 | skipping distributes over concatenation, so list order is kept |
| Planner.TaskStep | main.js:221-226 | one quest's calls: none exactly when its id is skipped, otherwise its start and then its claim |
| Planner.QuestPlan | main.js:220-227 | the quest calls for a list: at most two per listed quest |
| Planner.QuestPlanNext | main.js:220-227 | one more quest of the list appends that quest's calls to the plan |
| Planner.QuestActions | main.js:218-228 | no quest calls when the quest list is missing; otherwise two calls per kept quest |
| Planner.QuestPlanShape | main.js:220-227 | for each kept task in list order, its start is immediately followed by its claim; two calls per kept task and none for skipped ones |
| Planner.QuestPlanCalls | main.js:220-227 | every quest call is a start or a claim for the account's user, of a listed task that is not skipped |
| Planner.SkippedNeverCalled | main.js:221-223 | a task on the skip list is never started or claimed |
| Planner.LoggedInCalls | main.js:201-228 | the calls after a successful login: at least two, the first the farm-status request |
| Planner.AccountCalls | main.js:196-234 | one account's calls: the login first and the pause last; exactly these two when the login fails |
| Planner.LoggedInStages | main.js:201-228 | after a login the status request comes first, all farm calls come before the quest list request, and all quest calls come after it |
| Planner.AccountCallsOrder | main.js:196-234 | an account logs in first and pauses last, and pauses only there; its calls follow login, farm, quests, pause in order; a failed login means only login and pause; a successful one requests the farm status and the quest list |
| Planner.AccountLogins | main.js:196-234 | an account logs in exactly once, with its own credential line, and makes no countdown tick |
| Planner.BotLogsInOnce | main.js:196-234 | the same holds for every account of every round |
| Planner.ParseLine | main.js:190-194 | the user descriptor of a line (the bot's parser `LineParser` applies it to every line): none when the line has no `user=`; otherwise exactly what `decode` gives for its `user=` segment, None when that throws |
| Planner.Accounts | main.js:188-235 | the first `n` accounts of a round: they end in an error exactly when one of their lines does not parse |
| Planner.Pass | main.js:187-237 | one round: it ends in an error exactly when some line does not parse |
| Planner.RunPasses | main.js:187-238 | the first `passes` rounds: they end in an error exactly when there is a round and some line does not parse |
| Planner.FirstUnparsable | main.js:188-190 | the first line that does not parse, or the number of lines when all do |
| Planner.AccountsNext | main.js:189-234 | an account whose line parses appends its own calls and the round goes on |
| Planner.AccountsFail | main.js:190 | an account whose line does not parse adds nothing and the round stops with an error |
| Planner.AccountsStayCrashed | main.js:243-246 | after the error no later account does anything |
| Planner.AccountsUntilFailure | main.js:188-235 | with `k` the first line that does not parse, the first `n` accounts crash exactly when `k < n`; they log in to exactly the lines before `k`, in order; they make no countdown tick |
| Planner.PassLogins | main.js:187-237 | a round crashes exactly when some line does not parse, and logs in to exactly the lines before the first such line, in order |
| Planner.PassOutcome | main.js:187-237 | a round crashes exactly when some line does not parse; a round that does not crash ends with the full 28801-tick countdown |
| Planner.RunPassesLogins | main.js:187-238 | when every line parses, each round logs in to all lines in order and the run never stops; otherwise the first round stops at the first bad line and nothing follows |
| Planner.RunPassesStayCrashed | main.js:243-246 | once a round has thrown, later rounds change nothing |
| Planner.MissingUserKeyStops | main.js:190 | a credential line without `user=` stops the bot in its first round, whatever the service answers |
| TonStationClient.TonStation.constructor | main.js:26 | the bot starts with the two skipped quest ids and no calls issued |
| TonStationClient.TonStation.Countdown | main.js:49-56 | the countdown loop issues exactly the ticks from `seconds` down to 0 |
| TonStationClient.TonStation.Authenticate | main.js:58-73 | one login request with the credential line; hands back the service's session, None on failure |
| TonStationClient.TonStation.GetFarmStatus | main.js:75-88 | one status request; hands back the farm list, None on failure |
| TonStationClient.TonStation.StartFarm | main.js:90-108 | one farm-start request |
| TonStationClient.TonStation.ClaimFarm | main.js:110-127 | one farm-claim request carrying the farm's id |
| TonStationClient.TonStation.GetTask | main.js:129-142 | one quest-list request; hands back the list, None on failure |
| TonStationClient.TonStation.StartTask | main.js:144-157 | one quest-start request |
| TonStationClient.TonStation.ClaimTask | main.js:159-177 | one quest-claim request |
| TonStationClient.TonStation.RunFarm | main.js:201-216 | the farm branch issues the status request and then exactly the farm decision's calls |
| TonStationClient.TonStation.RunQuests | main.js:218-228 | the quest loop issues the list request and then exactly the quest plan: start and claim for each non-skipped task, in order |
| TonStationClient.TonStation.RunAccount | main.js:196-234 | one account issues exactly its planned calls |
| TonStationClient.TonStation.RunParsed | main.js:191-234 | an account whose line parsed extends the round by exactly that account's calls |
| TonStationClient.TonStation.RunLine | main.js:189-235 | parsing one line and running its account extends the round exactly by one account, or stops it when the line does not parse |
| TonStationClient.TonStation.RunPass | main.js:188-237 | one round of the loop issues exactly the round's planned calls and reports whether it threw |
| TonStationClient.TonStation.RunMain | main.js:179-239 | `main`, cut off after `passes` rounds, reads the lines once and issues exactly the planned run |

## Left out

- HTTP (axios), the base URL, the request headers and bodies, and the bearer
  token. Each request is a `Call` that records only the data the decisions
  use: the credential line, the user id, the farm id and the quest. The
  service's answers are inputs.
- Status codes and response shapes. The model keeps only what the bot sees:
  a session or nothing, a farm list or nothing, a task list or nothing.
  Errors raised by a request inside `startFarm`, `claimFarm`, `startTask` and
  `claimTask`, or by reading its response, are caught and only logged, so
  those answers have no effect on the decisions. Their payloads are built
  before the `try` (main.js:93-96, 113-116, 147-151, 162-166).
- Logging, colours, the console banner and the account header
  (main.js:29-47, 180, 194). The countdown's screen output is reduced to one
  tick per shown value.
- luxon. Times are integers compared as numbers, and an unparsable end time
  is `None`. The display formatting of times is not part of this model.
- Real delays (`setTimeout`) and the clock. The clock reading at the farm
  comparison is the `now` field of the answers.
- `decodeURIComponent`, `JSON.parse` and the reads of `id` and `first_name`
  (main.js:190-194). Together they are one parameter `decode`, which returns
  None whenever any of them would throw.
- The endless `while (true)`. The model covers its first `passes` rounds, for
  any `passes`.
- `fs.readFileSync` and `process.exit`. The file's text is an input, and the
  exit is the `crashed` flag.
- A quest list that is truthy but not iterable. The model takes the quest list
  as a list whenever it is present.
- Descriptors without a usable `id`. The model assumes the descriptor's `id`
  is present whenever the line decodes. If `id` is missing or `null`, nothing
  throws at main.js:191, and the account logs in and asks for its farm
  status. Its first farm or quest POST then throws out of `main` at
  `userId.toString()` (main.js:94, 114, 148, 163), so the run crashes partway
  through that account. If no such POST happens, the account ends normally.
  The model has no outcome for a crash partway through an account.
- List entries that are not objects. The model assumes every entry of the
  farm list and of the quest list is an object. A `null` entry throws outside
  any `try`, at `currentFarm.timeEnd` (main.js:204) or at `task.id`
  (main.js:221), so the run crashes partway through the account.
