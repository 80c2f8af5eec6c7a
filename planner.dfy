/** The bot's decisions as pure functions (main.js:188-237).

    The remote service's answers are inputs (`Replies`); the output is the
    sequence of calls the bot issues (`Call`), together with whether the run
    ended with an uncaught error. The class in client.dfy issues the calls
    step by step and is proved to issue exactly these. */
module Planner {
  import opened Wrappers
  import DataFile

  // ---------------------------------------------------------------------------
  // Data
  // ---------------------------------------------------------------------------

  type UserId = int

  /** The user descriptor embedded in a credential line. */
  datatype User = User(id: UserId, firstName: string)

  /** What a successful login returns; only the bearer token is used. */
  datatype Session = Session(accessToken: string)

  /** A running farm: its id and its end time. `timeEnd` is None when the
      service's timestamp is not valid ISO-8601, which luxon turns into an
      invalid date that no comparison holds for. */
  datatype Farm = Farm(id: string, timeEnd: Option<int>)

  datatype Task = Task(id: string, project: string, description: string, rewardAmount: int)

  /** The remote service's answers for one account in one pass, and the clock
      reading taken when the farm's end time is compared.
      `auth`: None for a failed or falsy login (main.js:64-71, 197).
      `farmStatus`: None when the response or its data is missing, including a
      transport error (main.js:80-87).
      `tasks`: None when the quest list is missing (main.js:134-141). */
  datatype Replies = Replies(
    auth: Option<Session>,
    farmStatus: Option<seq<Farm>>,
    now: int,
    tasks: Option<seq<Task>>)

  /** The outside world of a run.
      `parse` turns a credential line into its user descriptor, None when that
      throws; the bot's own parser is `LineParser(decode)`.
      `replies(pass, i)` is what the service answers for account `i` in pass `pass`. */
  datatype Env = Env(parse: string -> Option<User>, replies: (nat, nat) -> Replies)

  /** One observable step of the bot: a request to the service, the one-second
      pause after an account, or one second of the countdown showing `remaining`. */
  datatype Call =
    | Auth(initData: string)
    | FarmStatus(farmUser: UserId)
    | FarmStart(farmUser: UserId)
    | FarmClaim(farmUser: UserId, farmId: string)
    | TaskList(taskUser: UserId)
    | TaskStart(taskUser: UserId, task: Task)
    | TaskClaim(taskUser: UserId, task: Task)
    | Pause
    | Tick(remaining: int)

  /** The calls of a run and whether it ended with an uncaught error
      (main.js:243-246). */
  datatype Outcome = Outcome(calls: seq<Call>, crashed: bool)

  /** Quest ids the bot never starts or claims (main.js:26). */
  const SkipTaskIds: seq<string> := ["66dad41d9b1e65019ad30629", "66f560c1c6fc8ba931b33420"]

  /** The wait after a full pass, in seconds (main.js:237). */
  const CountdownSeconds: int := 480 * 60

  // ---------------------------------------------------------------------------
  // Countdown (main.js:49-56)
  // ---------------------------------------------------------------------------

  /** Ticks showing `from`, `from - 1`, ..., `downTo`. */
  function Ticks(from: int, downTo: int): (r: seq<Call>)
    ensures |r| == if from < downTo then 0 else from - downTo + 1
    ensures |r| > 0 ==> r[0] == Tick(from) && r[|r| - 1] == Tick(downTo)
  {
    if from < downTo then [] else seq(from - downTo + 1, k => Tick(from - k))
  }

  /** The countdown shows every value from `from` down to `downTo`, each once,
      in strictly decreasing order, and nothing outside that range. */
  lemma {:induction false} TicksShape(from: int, downTo: int)
    ensures forall i :: 0 <= i < |Ticks(from, downTo)| ==>
              Ticks(from, downTo)[i].Tick? && downTo <= Ticks(from, downTo)[i].remaining <= from
    ensures forall i, j :: 0 <= i < j < |Ticks(from, downTo)| ==>
              Ticks(from, downTo)[j].remaining < Ticks(from, downTo)[i].remaining
    ensures forall v :: downTo <= v <= from ==> Tick(v) in Ticks(from, downTo)
  {
    var r := Ticks(from, downTo);
    forall v | downTo <= v <= from ensures Tick(v) in r {
      assert r[from - v] == Tick(v);
    }
  }

  /** `countdown(CountdownSeconds)` shows CountdownSeconds + 1 values, from
      28800 down to 0, each of them once. */
  lemma {:induction false} CountdownLength()
    ensures |Ticks(CountdownSeconds, 0)| == 28801
    ensures Ticks(CountdownSeconds, 0)[0] == Tick(28800)
    ensures Ticks(CountdownSeconds, 0)[28800] == Tick(0)
    ensures forall v :: 0 <= v <= 28800 ==> Tick(v) in Ticks(CountdownSeconds, 0)
  {
    TicksShape(CountdownSeconds, 0);
  }

  // ---------------------------------------------------------------------------
  // Farm decision (main.js:201-216)
  // ---------------------------------------------------------------------------

  /** `now > timeEnd` as luxon evaluates it: false for an invalid end time. */
  predicate Expired(f: Farm, now: int)
  {
    f.timeEnd.Some? && now > f.timeEnd.value
  }

  /** The farm calls after the status request: start a farm when none runs,
      claim the first one and start anew when it has expired, otherwise wait. */
  function FarmActions(user: UserId, status: Option<seq<Farm>>, now: int): (r: seq<Call>)
    ensures |r| <= 2
    ensures r != [] ==> r[|r| - 1] == FarmStart(user)
    ensures forall c :: c in r ==> c == FarmStart(user) || (c.FarmClaim? && c.farmUser == user)
  {
    if status.None? || |status.value| == 0 then [FarmStart(user)]
    else if Expired(status.value[0], now) then [FarmClaim(user, status.value[0].id), FarmStart(user)]
    else []
  }

  /** No farm, whether the status request failed or the list is empty: exactly
      one start and no claim. */
  lemma {:induction false} FarmNoneStarts(user: UserId, status: Option<seq<Farm>>, now: int)
    requires status.None? || status.value == []
    ensures FarmActions(user, status, now) == [FarmStart(user)]
  {
  }

  /** An expired first farm: claim it, then start once. */
  lemma {:induction false} FarmExpiredClaimsThenStarts(user: UserId, f: Farm, rest: seq<Farm>, now: int, end: int)
    requires f.timeEnd == Some(end) && now > end
    ensures FarmActions(user, Some([f] + rest), now) == [FarmClaim(user, f.id), FarmStart(user)]
  {
  }

  /** A first farm that has not expired, including `now == timeEnd`, or whose
      end time is invalid: no farm call at all. */
  lemma {:induction false} FarmRunningWaits(user: UserId, f: Farm, rest: seq<Farm>, now: int)
    requires f.timeEnd.None? || now <= f.timeEnd.value
    ensures FarmActions(user, Some([f] + rest), now) == []
  {
  }

  /** Only the first farm of the status list matters. */
  lemma {:induction false} FarmOnlyFirst(user: UserId, f: Farm, rest1: seq<Farm>, rest2: seq<Farm>, now: int)
    ensures FarmActions(user, Some([f] + rest1), now) == FarmActions(user, Some([f] + rest2), now)
  {
  }

  /** Given the status reply it received, the bot claims only an expired farm
      and starts one only when the reply shows no farm or an expired one. A
      failed status request reads as "no farm", so the bot then starts a farm
      even if one is in fact still running (main.js:85-87, 213-215). */
  lemma {:induction false} FarmActionsRespectService(user: UserId, status: Option<seq<Farm>>, now: int)
    ensures forall c :: c in FarmActions(user, status, now) && c.FarmClaim? ==>
              status.Some? && |status.value| > 0 && Expired(status.value[0], now)
              && c.farmId == status.value[0].id
    ensures FarmStart(user) in FarmActions(user, status, now) <==>
              status.None? || |status.value| == 0 || Expired(status.value[0], now)
    ensures |FarmActions(user, status, now)| <= 2
  {
  }

  // ---------------------------------------------------------------------------
  // Quest plan (main.js:218-228)
  // ---------------------------------------------------------------------------

  /** The entries of `tasks` whose id is not in `skip`, in order. */
  function Kept(tasks: seq<Task>, skip: seq<string>): (r: seq<Task>)
    ensures |r| <= |tasks|
  {
    if tasks == [] then []
    else
      var last := tasks[|tasks| - 1];
      Kept(tasks[..|tasks| - 1], skip) + (if last.id in skip then [] else [last])
  }

  /** The kept tasks are exactly the listed ones whose id is not skipped. */
  lemma {:induction false} KeptMembers(tasks: seq<Task>, skip: seq<string>)
    ensures |Kept(tasks, skip)| <= |tasks|
    ensures forall t :: t in Kept(tasks, skip) <==> t in tasks && t.id !in skip
  {
    if tasks != [] {
      var init := tasks[..|tasks| - 1];
      KeptMembers(init, skip);
      assert tasks == init + [tasks[|tasks| - 1]];
    }
  }

  /** The start and claim the bot issues for one task, or nothing for a skipped one. */
  function TaskStep(user: UserId, t: Task, skip: seq<string>): (r: seq<Call>)
    ensures r == [] <==> t.id in skip
    ensures r != [] ==> r == [TaskStart(user, t), TaskClaim(user, t)]
  {
    if t.id in skip then [] else [TaskStart(user, t), TaskClaim(user, t)]
  }

  /** The quest calls for a task list, in list order. */
  function QuestPlan(user: UserId, tasks: seq<Task>, skip: seq<string>): (r: seq<Call>)
    ensures |r| <= 2 * |tasks|
  {
    if tasks == [] then []
    else QuestPlan(user, tasks[..|tasks| - 1], skip) + TaskStep(user, tasks[|tasks| - 1], skip)
  }

  /** The quest plan of one more task of the list. */
  lemma {:induction false} QuestPlanNext(user: UserId, tasks: seq<Task>, k: nat, skip: seq<string>)
    requires k < |tasks|
    ensures QuestPlan(user, tasks[..k + 1], skip) == QuestPlan(user, tasks[..k], skip) + TaskStep(user, tasks[k], skip)
  {
    assert tasks[..k + 1][..k] == tasks[..k];
  }

  /** Filtering distributes over concatenation, so it keeps the list order. */
  lemma {:induction false} KeptConcat(a: seq<Task>, b: seq<Task>, skip: seq<string>)
    ensures Kept(a + b, skip) == Kept(a, skip) + Kept(b, skip)
  {
    if b == [] {
      assert a + b == a;
    } else {
      var init := b[..|b| - 1];
      assert (a + b)[..|a + b| - 1] == a + init;
      assert (a + b)[|a + b| - 1] == b[|b| - 1];
      KeptConcat(a, init, skip);
    }
  }

  /** The quest plan is, for each kept task in order, its start immediately
      followed by its claim: two calls per kept task and none for skipped ones. */
  lemma {:induction false} QuestPlanShape(user: UserId, tasks: seq<Task>, skip: seq<string>)
    ensures |QuestPlan(user, tasks, skip)| == 2 * |Kept(tasks, skip)|
    ensures forall k :: 0 <= k < |Kept(tasks, skip)| ==>
              && QuestPlan(user, tasks, skip)[2 * k] == TaskStart(user, Kept(tasks, skip)[k])
              && QuestPlan(user, tasks, skip)[2 * k + 1] == TaskClaim(user, Kept(tasks, skip)[k])
  {
    if tasks != [] {
      var init := tasks[..|tasks| - 1];
      var last := tasks[|tasks| - 1];
      QuestPlanShape(user, init, skip);
      var p := QuestPlan(user, init, skip);
      var kp := Kept(init, skip);
      if last.id !in skip {
        var q := p + [TaskStart(user, last), TaskClaim(user, last)];
        var kq := kp + [last];
        assert QuestPlan(user, tasks, skip) == q;
        assert Kept(tasks, skip) == kq;
        forall k | 0 <= k < |kq|
          ensures q[2 * k] == TaskStart(user, kq[k]) && q[2 * k + 1] == TaskClaim(user, kq[k])
        {
          if k < |kp| {
            assert q[2 * k] == p[2 * k] && q[2 * k + 1] == p[2 * k + 1];
          }
        }
      } else {
        assert QuestPlan(user, tasks, skip) == p + [];
        assert Kept(tasks, skip) == kp + [];
      }
    }
  }

  /** Every quest call is a start or a claim for the account's own user, of a
      task of the list whose id is not skipped. */
  lemma {:induction false} QuestPlanCalls(user: UserId, tasks: seq<Task>, skip: seq<string>)
    ensures forall i :: 0 <= i < |QuestPlan(user, tasks, skip)| ==>
              var c := QuestPlan(user, tasks, skip)[i];
              (c.TaskStart? || c.TaskClaim?) && c.taskUser == user && c.task in tasks && c.task.id !in skip
  {
    var plan := QuestPlan(user, tasks, skip);
    var kept := Kept(tasks, skip);
    QuestPlanShape(user, tasks, skip);
    KeptMembers(tasks, skip);
    forall i | 0 <= i < |plan|
      ensures (plan[i].TaskStart? || plan[i].TaskClaim?) && plan[i].taskUser == user
              && plan[i].task in tasks && plan[i].task.id !in skip
    {
      var k := i / 2;
      assert kept[k] in kept;
      if i == 2 * k {
        assert plan[i] == TaskStart(user, kept[k]);
      } else {
        assert plan[i] == TaskClaim(user, kept[k]);
      }
    }
  }

  /** A skipped task never appears in a quest call. */
  lemma {:induction false} SkippedNeverCalled(user: UserId, tasks: seq<Task>, skip: seq<string>, t: Task)
    requires t.id in skip
    ensures TaskStart(user, t) !in QuestPlan(user, tasks, skip)
    ensures TaskClaim(user, t) !in QuestPlan(user, tasks, skip)
  {
    QuestPlanCalls(user, tasks, skip);
  }

  /** The quest calls after the list request: none when the list is missing. */
  function QuestActions(user: UserId, tasks: Option<seq<Task>>, skip: seq<string>): (r: seq<Call>)
    ensures tasks.None? ==> r == []
    ensures tasks.Some? ==> |r| == 2 * |Kept(tasks.value, skip)|
  {
    match tasks
    case None => []
    case Some(ts) =>
      QuestPlanShape(user, ts, skip);
      QuestPlan(user, ts, skip)
  }

  // ---------------------------------------------------------------------------
  // One account (main.js:189-234)
  // ---------------------------------------------------------------------------

  /** The farm and quest calls of an account whose login succeeded. */
  function LoggedInCalls(user: User, r: Replies, skip: seq<string>): (w: seq<Call>)
    ensures |w| >= 2 && w[0] == FarmStatus(user.id)
  {
    [FarmStatus(user.id)] + FarmActions(user.id, r.farmStatus, r.now)
    + [TaskList(user.id)] + QuestActions(user.id, r.tasks, skip)
  }

  /** The calls for one account whose descriptor decoded to `user`. */
  function AccountCalls(line: string, user: User, r: Replies, skip: seq<string>): (s: seq<Call>)
    ensures |s| >= 2 && s[0] == Auth(line) && s[|s| - 1] == Pause
    ensures r.auth.None? <==> |s| == 2
  {
    [Auth(line)] + (if r.auth.None? then [] else LoggedInCalls(user, r, skip)) + [Pause]
  }

  /** The stage of an account's run a call belongs to. */
  function Stage(c: Call): nat
  {
    match c
    case Auth(_) => 0
    case FarmStatus(_) => 1
    case FarmStart(_) => 1
    case FarmClaim(_, _) => 1
    case TaskList(_) => 2
    case TaskStart(_, _) => 2
    case TaskClaim(_, _) => 2
    case Pause => 3
    case Tick(_) => 4
  }

  /** The calls of `s` go through the stages in non-decreasing order. */
  predicate StagesInOrder(s: seq<Call>)
  {
    forall i, j :: 0 <= i < j < |s| ==> Stage(s[i]) <= Stage(s[j])
  }

  /** Every call of `s` is in a stage between `lo` and `hi`. */
  predicate StagesWithin(s: seq<Call>, lo: nat, hi: nat)
  {
    forall i :: 0 <= i < |s| ==> lo <= Stage(s[i]) <= hi
  }

  lemma {:induction false} AppendInOrder(a: seq<Call>, b: seq<Call>, st: nat)
    requires StagesInOrder(a) && StagesInOrder(b)
    requires StagesWithin(a, 0, st) && StagesWithin(b, st, 4)
    ensures StagesInOrder(a + b)
  {
    forall i, j | 0 <= i < j < |a + b| ensures Stage((a + b)[i]) <= Stage((a + b)[j]) {
      if j < |a| {
        assert (a + b)[i] == a[i] && (a + b)[j] == a[j];
      } else if i < |a| {
        assert (a + b)[i] == a[i] && (a + b)[j] == b[j - |a|];
      } else {
        assert (a + b)[i] == b[i - |a|] && (a + b)[j] == b[j - |a|];
      }
    }
  }

  lemma {:induction false} WithinConcat(a: seq<Call>, b: seq<Call>, lo: nat, hi: nat)
    requires StagesWithin(a, lo, hi) && StagesWithin(b, lo, hi)
    ensures StagesWithin(a + b, lo, hi)
  {
    forall i | 0 <= i < |a + b| ensures lo <= Stage((a + b)[i]) <= hi {
      if i < |a| {
        assert (a + b)[i] == a[i];
      } else {
        assert (a + b)[i] == b[i - |a|];
      }
    }
  }

  /** After a successful login: the status request comes first, every farm call
      comes before every quest call, and the quest list is requested. */
  lemma {:induction false} LoggedInStages(user: User, r: Replies, skip: seq<string>)
    ensures var w := LoggedInCalls(user, r, skip);
            && StagesInOrder(w) && StagesWithin(w, 1, 2)
            && w[0] == FarmStatus(user.id) && TaskList(user.id) in w
  {
    var farm := [FarmStatus(user.id)] + FarmActions(user.id, r.farmStatus, r.now);
    var quest := [TaskList(user.id)] + QuestActions(user.id, r.tasks, skip);
    assert StagesWithin(farm, 1, 1);
    assert StagesWithin(quest, 2, 2) by {
      if r.tasks.Some? {
        QuestPlanCalls(user.id, r.tasks.value, skip);
      }
      forall i | 0 <= i < |quest| ensures Stage(quest[i]) == 2 {
        if i > 0 {
          assert quest[i] == QuestActions(user.id, r.tasks, skip)[i - 1];
        }
      }
    }
    AppendInOrder(farm, quest, 1);
    WithinConcat(farm, quest, 1, 2);
    assert LoggedInCalls(user, r, skip) == farm + quest;
    assert (farm + quest)[|farm|] == TaskList(user.id);
  }

  /** A pause after a login and calls of the farm and quest stages. */
  lemma {:induction false} FramedOrder(line: string, w: seq<Call>)
    requires StagesInOrder(w) && StagesWithin(w, 1, 2)
    ensures var s := [Auth(line)] + w + [Pause];
            && |s| == |w| + 2 && s[0] == Auth(line) && s[|s| - 1] == Pause
            && StagesInOrder(s)
            && (forall i :: 0 <= i < |s| - 1 ==> s[i] != Pause)
            && (forall c :: c in w ==> c in s)
  {
    var s := [Auth(line)] + w + [Pause];
    AppendInOrder([Auth(line)], w, 0);
    WithinConcat([Auth(line)], w, 0, 2);
    AppendInOrder([Auth(line)] + w, [Pause], 2);
    forall i | 0 <= i < |s| - 1 ensures s[i] != Pause {
      assert s[i] == ([Auth(line)] + w)[i];
    }
    forall c | c in w ensures c in s {
      var i :| 0 <= i < |w| && w[i] == c;
      assert s[i + 1] == c;
    }
  }

  /** An account's calls: the login first, then the farm calls, then the quest
      calls, then the pause, which comes last and only there; the farm and
      quest calls happen exactly when the login succeeded. */
  lemma {:induction false} AccountCallsOrder(line: string, user: User, r: Replies, skip: seq<string>)
    ensures var s := AccountCalls(line, user, r, skip);
            && |s| >= 2 && s[0] == Auth(line) && s[|s| - 1] == Pause
            && StagesInOrder(s)
            && (forall i :: 0 <= i < |s| - 1 ==> s[i] != Pause)
            && (r.auth.None? <==> s == [Auth(line), Pause])
            && (r.auth.Some? ==> FarmStatus(user.id) in s && TaskList(user.id) in s)
  {
    var w := if r.auth.None? then [] else LoggedInCalls(user, r, skip);
    if r.auth.Some? {
      LoggedInStages(user, r, skip);
    }
    FramedOrder(line, w);
    assert AccountCalls(line, user, r, skip) == [Auth(line)] + w + [Pause];
  }

  // ---------------------------------------------------------------------------
  // Logins: which accounts were processed
  // ---------------------------------------------------------------------------

  /** The credential lines of the `Auth` calls of `s`, in order. */
  function Logins(s: seq<Call>): seq<string>
  {
    if s == [] then []
    else (if s[0].Auth? then [s[0].initData] else []) + Logins(s[1..])
  }

  lemma {:induction false} LoginsConcat(a: seq<Call>, b: seq<Call>)
    ensures Logins(a + b) == Logins(a) + Logins(b)
  {
    if a == [] {
      assert a + b == b;
    } else {
      assert (a + b)[0] == a[0];
      assert (a + b)[1..] == a[1..] + b;
      LoginsConcat(a[1..], b);
    }
  }

  lemma {:induction false} LoginsNone(s: seq<Call>)
    requires StagesWithin(s, 1, 4)
    ensures Logins(s) == []
  {
    if s != [] {
      assert s[0] == s[0];
      LoginsNone(s[1..]);
    }
  }

  lemma {:induction false} LoginsFirst(line: string, tail: seq<Call>)
    requires StagesWithin(tail, 1, 4)
    ensures Logins([Auth(line)] + tail) == [line]
  {
    LoginsNone(tail);
    assert Logins([Auth(line)]) == [line] by {
      assert [Auth(line)][1..] == [];
    }
    LoginsConcat([Auth(line)], tail);
  }

  /** Calls of the farm and quest stages between a login and a pause log in
      nothing more. */
  lemma {:induction false} FramedLogins(line: string, w: seq<Call>)
    requires StagesWithin(w, 1, 2)
    ensures Logins([Auth(line)] + w + [Pause]) == [line]
    ensures StagesWithin([Auth(line)] + w + [Pause], 0, 3)
  {
    var tail := w + [Pause];
    WithinConcat(w, [Pause], 1, 3);
    assert [Auth(line)] + w + [Pause] == [Auth(line)] + tail;
    LoginsFirst(line, tail);
    WithinConcat([Auth(line)], tail, 0, 3);
  }

  /** Each account logs in exactly once, with its own credential line, and
      issues no countdown tick. */
  lemma {:induction false} AccountLogins(line: string, user: User, r: Replies, skip: seq<string>)
    ensures Logins(AccountCalls(line, user, r, skip)) == [line]
    ensures StagesWithin(AccountCalls(line, user, r, skip), 0, 3)
  {
    var w := if r.auth.None? then [] else LoggedInCalls(user, r, skip);
    if r.auth.Some? {
      LoggedInStages(user, r, skip);
    }
    FramedLogins(line, w);
    assert AccountCalls(line, user, r, skip) == [Auth(line)] + w + [Pause];
  }

  lemma {:induction false} TicksNoLogin(from: int, downTo: int)
    ensures Logins(Ticks(from, downTo)) == []
  {
    TicksShape(from, downTo);
    LoginsNone(Ticks(from, downTo));
  }

  // ---------------------------------------------------------------------------
  // One pass over all accounts, and the endless loop (main.js:187-238)
  // ---------------------------------------------------------------------------

  /** The user descriptor of a credential line, or None when the line has no
      `user=` segment or the segment does not decode (main.js:190). */
  function ParseLine(line: string, decode: string -> Option<User>): (u: Option<User>)
    ensures (forall j :: !DataFile.OccursAt(line, DataFile.UserKey, j)) ==> u.None?
    ensures DataFile.UserSegment(line).Some? ==> u == decode(DataFile.UserSegment(line).value)
  {
    match DataFile.UserSegment(line)
    case None => None
    case Some(seg) => decode(seg)
  }

  /** The credential-line parser of main.js:190-194. `decode` stands for
      `JSON.parse(decodeURIComponent(...))` followed by reading `id` and
      `first_name`: None when any of that throws. */
  function LineParser(decode: string -> Option<User>): string -> Option<User>
  {
    line => ParseLine(line, decode)
  }

  /** The calls of account `i` of pass `pass`, whose line `line` decoded to `user`. */
  function BotStep(env: Env, skip: seq<string>, pass: nat): (nat, string, User) -> seq<Call>
  {
    (i: nat, line: string, user: User) => AccountCalls(line, user, env.replies(pass, i), skip)
  }

  /** Account `i` of pass `pass` issues the bot's calls for it. */
  lemma {:induction false} BotStepCalls(env: Env, skip: seq<string>, pass: nat, i: nat, line: string, user: User)
    ensures BotStep(env, skip, pass)(i, line, user) == AccountCalls(line, user, env.replies(pass, i), skip)
  {
  }

  lemma {:induction false} ConcatAssoc(a: seq<Call>, b: seq<Call>, c: seq<Call>)
    ensures (a + b) + c == a + (b + c)
    ensures a + (b + []) == a + b
  {
  }

  /** The first `n` accounts of a pass, account `i` issuing `step(i, line, user)`
      once its line has parsed; a line that does not parse throws, which ends
      the run there. */
  function Accounts(lines: seq<string>, parse: string -> Option<User>,
                    step: (nat, string, User) -> seq<Call>, n: nat): (r: Outcome)
    requires n <= |lines|
    ensures r.crashed <==> exists j :: 0 <= j < n && parse(lines[j]).None?
  {
    if n == 0 then Outcome([], false)
    else
      var prev := Accounts(lines, parse, step, n - 1);
      if prev.crashed then prev
      else match parse(lines[n - 1])
        case None => Outcome(prev.calls, true)
        case Some(user) => Outcome(prev.calls + step(n - 1, lines[n - 1], user), false)
  }

  /** One pass: every account, then the countdown unless the pass crashed. */
  function Pass(lines: seq<string>, env: Env, skip: seq<string>, pass: nat): (r: Outcome)
    ensures r.crashed <==> exists j :: 0 <= j < |lines| && env.parse(lines[j]).None?
  {
    var a := Accounts(lines, env.parse, BotStep(env, skip, pass), |lines|);
    if a.crashed then a else Outcome(a.calls + Ticks(CountdownSeconds, 0), false)
  }

  /** The first `passes` passes of the endless loop, over the same lines each
      time, since the data file is read once before the loop. */
  function RunPasses(lines: seq<string>, env: Env, skip: seq<string>, passes: nat): (r: Outcome)
    ensures r.crashed <==> passes > 0 && exists j :: 0 <= j < |lines| && env.parse(lines[j]).None?
  {
    if passes == 0 then Outcome([], false)
    else
      var prev := RunPasses(lines, env, skip, passes - 1);
      if prev.crashed then prev
      else
        var p := Pass(lines, env, skip, passes - 1);
        Outcome(prev.calls + p.calls, p.crashed)
  }

  /** The index of the first line at or after `from` that does not parse, or |lines|. */
  function FirstUnparsable(lines: seq<string>, parse: string -> Option<User>, from: nat): (k: nat)
    requires from <= |lines|
    decreases |lines| - from
    ensures from <= k <= |lines|
    ensures forall j :: from <= j < k ==> parse(lines[j]).Some?
    ensures k < |lines| ==> parse(lines[k]).None?
  {
    if from == |lines| || parse(lines[from]).None? then from
    else FirstUnparsable(lines, parse, from + 1)
  }

  /** The next account, when its line parses. */
  lemma {:induction false} AccountsNext(lines: seq<string>, parse: string -> Option<User>,
                                        step: (nat, string, User) -> seq<Call>, n: nat, user: User)
    requires n < |lines| && !Accounts(lines, parse, step, n).crashed
    requires parse(lines[n]) == Some(user)
    ensures Accounts(lines, parse, step, n + 1)
            == Outcome(Accounts(lines, parse, step, n).calls + step(n, lines[n], user), false)
  {
  }

  /** The next account, when its line does not parse: the pass crashes. */
  lemma {:induction false} AccountsFail(lines: seq<string>, parse: string -> Option<User>,
                                        step: (nat, string, User) -> seq<Call>, n: nat)
    requires n < |lines| && !Accounts(lines, parse, step, n).crashed
    requires parse(lines[n]).None?
    ensures Accounts(lines, parse, step, n + 1) == Outcome(Accounts(lines, parse, step, n).calls, true)
  {
  }

  /** Once a crash has happened, the later accounts change nothing. */
  lemma {:induction false} AccountsStayCrashed(lines: seq<string>, parse: string -> Option<User>,
                                               step: (nat, string, User) -> seq<Call>, m: nat, n: nat)
    requires m <= n <= |lines|
    requires Accounts(lines, parse, step, m).crashed
    ensures Accounts(lines, parse, step, n) == Accounts(lines, parse, step, m)
  {
    if m < n {
      AccountsStayCrashed(lines, parse, step, m, n - 1);
    }
  }

  lemma {:induction false} AppendAccount(prev: seq<Call>, acc: seq<Call>, lines: seq<string>, n: nat)
    requires 0 < n <= |lines|
    requires Logins(prev) == lines[..n - 1] && StagesWithin(prev, 0, 3)
    requires Logins(acc) == [lines[n - 1]] && StagesWithin(acc, 0, 3)
    ensures Logins(prev + acc) == lines[..n] && StagesWithin(prev + acc, 0, 3)
  {
    LoginsConcat(prev, acc);
    WithinConcat(prev, acc, 0, 3);
    assert lines[..n] == lines[..n - 1] + [lines[n - 1]];
  }

  /** Each account's calls log in once, with the account's own line, and
      contain no countdown tick. */
  ghost predicate LogsInOnce(step: (nat, string, User) -> seq<Call>)
  {
    forall i, line, user :: Logins(step(i, line, user)) == [line] && StagesWithin(step(i, line, user), 0, 3)
  }

  /** The bot's accounts each log in once. */
  lemma {:induction false} BotLogsInOnce(env: Env, skip: seq<string>, pass: nat)
    ensures LogsInOnce(BotStep(env, skip, pass))
  {
    var step := BotStep(env, skip, pass);
    forall i, line, user
      ensures Logins(step(i, line, user)) == [line] && StagesWithin(step(i, line, user), 0, 3)
    {
      AccountLogins(line, user, env.replies(pass, i), skip);
    }
  }

  /** The first `n` accounts when line `k` is the first that does not parse
      (k == |lines| when all parse): exactly the accounts before `k` log in, in
      order, the run crashes exactly when `k` is among the first `n`, and no
      countdown tick is issued. */
  lemma {:induction false} AccountsUntilFailure(lines: seq<string>, parse: string -> Option<User>,
                                                step: (nat, string, User) -> seq<Call>, k: nat, n: nat)
    requires LogsInOnce(step)
    requires k <= |lines| && n <= |lines|
    requires forall j :: 0 <= j < k ==> parse(lines[j]).Some?
    requires k < |lines| ==> parse(lines[k]).None?
    ensures Accounts(lines, parse, step, n).crashed == (k < n)
    ensures Logins(Accounts(lines, parse, step, n).calls) == lines[..if n <= k then n else k]
    ensures StagesWithin(Accounts(lines, parse, step, n).calls, 0, 3)
  {
    if n > 0 {
      AccountsUntilFailure(lines, parse, step, k, n - 1);
      var prev := Accounts(lines, parse, step, n - 1);
      var line := lines[n - 1];
      if n - 1 < k {
        var user := parse(line).value;
        AppendAccount(prev.calls, step(n - 1, line, user), lines, n);
      } else if n - 1 == k {
        assert !prev.crashed;
        assert Accounts(lines, parse, step, n) == Outcome(prev.calls, true);
      } else {
        assert prev.crashed;
        assert Accounts(lines, parse, step, n) == prev;
      }
    }
  }

  /** A pass crashes exactly when line `k`, the first that does not parse,
      exists; the accounts before it log in, in order, and those after it do
      nothing. */
  lemma {:induction false} PassLogins(lines: seq<string>, env: Env, skip: seq<string>, pass: nat)
    ensures var k := FirstUnparsable(lines, env.parse, 0);
            var p := Pass(lines, env, skip, pass);
            && p.crashed == (k < |lines|)
            && Logins(p.calls) == lines[..k]
            && (p.crashed ==> StagesWithin(p.calls, 0, 3))
  {
    var k := FirstUnparsable(lines, env.parse, 0);
    var step := BotStep(env, skip, pass);
    BotLogsInOnce(env, skip, pass);
    AccountsUntilFailure(lines, env.parse, step, k, |lines|);
    var a := Accounts(lines, env.parse, step, |lines|);
    if !a.crashed {
      TicksNoLogin(CountdownSeconds, 0);
      LoginsConcat(a.calls, Ticks(CountdownSeconds, 0));
      assert lines[..|lines|] == lines;
    }
  }

  /** A pass crashes exactly when some line does not parse, and a pass that
      does not crash ends with the full countdown. */
  lemma {:induction false} PassOutcome(lines: seq<string>, env: Env, skip: seq<string>, pass: nat)
    ensures var p := Pass(lines, env, skip, pass);
            && (p.crashed <==> exists j :: 0 <= j < |lines| && env.parse(lines[j]).None?)
            && (!p.crashed ==> |p.calls| >= 28801 && p.calls[|p.calls| - 28801..] == Ticks(CountdownSeconds, 0))
  {
    var k := FirstUnparsable(lines, env.parse, 0);
    PassLogins(lines, env, skip, pass);
    var p := Pass(lines, env, skip, pass);
    if !p.crashed {
      var a := Accounts(lines, env.parse, BotStep(env, skip, pass), |lines|);
      CountdownLength();
      assert p.calls == a.calls + Ticks(CountdownSeconds, 0);
      assert p.calls[|p.calls| - 28801..] == Ticks(CountdownSeconds, 0);
    } else {
      assert env.parse(lines[k]).None?;
    }
  }

  /** `s` repeated `n` times. */
  function Repeat(s: seq<string>, n: nat): seq<string>
  {
    if n == 0 then [] else Repeat(s, n - 1) + s
  }

  /** Across passes: when every line parses, each pass logs in to the same
      accounts in the same order and the run never crashes; otherwise the
      first pass crashes at the first bad line and nothing happens after it. */
  lemma {:induction false} RunPassesLogins(lines: seq<string>, env: Env, skip: seq<string>, passes: nat)
    ensures var k := FirstUnparsable(lines, env.parse, 0);
            var run := RunPasses(lines, env, skip, passes);
            && run.crashed == (passes > 0 && k < |lines|)
            && Logins(run.calls) == (if k == |lines| then Repeat(lines, passes)
                                     else if passes == 0 then [] else lines[..k])
  {
    var k := FirstUnparsable(lines, env.parse, 0);
    if passes > 0 {
      RunPassesLogins(lines, env, skip, passes - 1);
      var prev := RunPasses(lines, env, skip, passes - 1);
      if !prev.crashed {
        var p := Pass(lines, env, skip, passes - 1);
        PassLogins(lines, env, skip, passes - 1);
        assert RunPasses(lines, env, skip, passes) == Outcome(prev.calls + p.calls, p.crashed);
        LoginsConcat(prev.calls, p.calls);
        if k == |lines| {
          assert lines[..k] == lines;
        }
      } else {
        assert RunPasses(lines, env, skip, passes) == prev;
      }
    }
  }

  /** Once a pass crashes, the later passes change nothing. */
  lemma {:induction false} RunPassesStayCrashed(lines: seq<string>, env: Env, skip: seq<string>, m: nat, n: nat)
    requires m <= n
    requires RunPasses(lines, env, skip, m).crashed
    ensures RunPasses(lines, env, skip, n) == RunPasses(lines, env, skip, m)
  {
    if m < n {
      RunPassesStayCrashed(lines, env, skip, m, n - 1);
      var prev := RunPasses(lines, env, skip, n - 1);
      assert prev.crashed;
      assert RunPasses(lines, env, skip, n) == prev;
    }
  }

  /** A credential line without `user=` stops the bot in its first pass,
      whatever the service answers: the source reads a missing split element
      and throws. */
  lemma {:induction false} MissingUserKeyStops(lines: seq<string>, decode: string -> Option<User>,
                                               replies: (nat, nat) -> Replies, skip: seq<string>,
                                               passes: nat, j: nat)
    requires j < |lines| && passes > 0
    requires forall i :: !DataFile.OccursAt(lines[j], DataFile.UserKey, i)
    ensures RunPasses(lines, Env(LineParser(decode), replies), skip, passes).crashed
  {
    var env := Env(LineParser(decode), replies);
    DataFile.UserSegmentSpec(lines[j]);
    assert env.parse(lines[j]).None?;
    var k := FirstUnparsable(lines, env.parse, 0);
    assert k <= j;
    RunPassesLogins(lines, env, skip, passes);
  }
}
