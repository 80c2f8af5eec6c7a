/** The bot object (main.js:8-240): each HTTP wrapper issues one request and
    hands back the service's answer, which is supplied by the caller; `main`
    sequences them account by account. The requests issued so far are kept in
    `calls`, and every method is proved to extend it exactly as the planner's
    functions say. */
module TonStationClient {
  import opened Wrappers
  import DataFile
  import opened Planner

  class TonStation {
    /** Quest ids never started or claimed (main.js:26). */
    const skipTaskIds: seq<string>
    /** Every request, pause and countdown tick issued so far, in order. */
    var calls: seq<Call>

    constructor ()
      ensures skipTaskIds == SkipTaskIds && calls == []
    {
      skipTaskIds := SkipTaskIds;
      calls := [];
    }

    /** Shows `seconds`, `seconds - 1`, ..., 0, one per second (main.js:49-56). */
    method Countdown(seconds: int)
      modifies this
      ensures calls == old(calls) + Ticks(seconds, 0)
    {
      var i := seconds;
      while i >= 0
        invariant i <= seconds && (i >= -1 || i == seconds)
        invariant calls == old(calls) + Ticks(seconds, i + 1)
      {
        assert Ticks(seconds, i) == Ticks(seconds, i + 1) + [Tick(i)];
        calls := calls + [Tick(i)];
        i := i - 1;
      }
      assert seconds >= 0 ==> i == -1;
    }

    /** POST to the login endpoint (main.js:58-73); None on any failure. */
    method Authenticate(initData: string, reply: Option<Session>) returns (r: Option<Session>)
      modifies this
      ensures calls == old(calls) + [Auth(initData)] && r == reply
    {
      calls := calls + [Auth(initData)];
      r := reply;
    }

    /** GET the running farms (main.js:75-88); None when the request fails. */
    method GetFarmStatus(userId: UserId, reply: Option<seq<Farm>>) returns (r: Option<seq<Farm>>)
      modifies this
      ensures calls == old(calls) + [FarmStatus(userId)] && r == reply
    {
      calls := calls + [FarmStatus(userId)];
      r := reply;
    }

    /** POST a farm start (main.js:90-108); its answer is only logged. */
    method StartFarm(userId: UserId)
      modifies this
      ensures calls == old(calls) + [FarmStart(userId)]
    {
      calls := calls + [FarmStart(userId)];
    }

    /** POST a farm claim (main.js:110-127); its answer is only logged. */
    method ClaimFarm(userId: UserId, farmId: string)
      modifies this
      ensures calls == old(calls) + [FarmClaim(userId, farmId)]
    {
      calls := calls + [FarmClaim(userId, farmId)];
    }

    /** GET the quest list (main.js:129-142); None when the request fails. */
    method GetTask(userId: UserId, reply: Option<seq<Task>>) returns (r: Option<seq<Task>>)
      modifies this
      ensures calls == old(calls) + [TaskList(userId)] && r == reply
    {
      calls := calls + [TaskList(userId)];
      r := reply;
    }

    /** POST a quest start (main.js:144-157). */
    method StartTask(userId: UserId, task: Task)
      modifies this
      ensures calls == old(calls) + [TaskStart(userId, task)]
    {
      calls := calls + [TaskStart(userId, task)];
    }

    /** POST a quest claim (main.js:159-177). */
    method ClaimTask(userId: UserId, task: Task)
      modifies this
      ensures calls == old(calls) + [TaskClaim(userId, task)]
    {
      calls := calls + [TaskClaim(userId, task)];
    }

    /** The farm branch (main.js:201-216). */
    method RunFarm(userId: UserId, reply: Replies)
      modifies this
      ensures calls == old(calls) + [FarmStatus(userId)] + FarmActions(userId, reply.farmStatus, reply.now)
    {
      var farmStatus := GetFarmStatus(userId, reply.farmStatus);
      if farmStatus.Some? && |farmStatus.value| > 0 {
        var currentFarm := farmStatus.value[0];
        if currentFarm.timeEnd.Some? && reply.now > currentFarm.timeEnd.value {
          ClaimFarm(userId, currentFarm.id);
          StartFarm(userId);
        }
      } else {
        StartFarm(userId);
      }
    }

    /** The quest loop (main.js:218-228): skipped quests are passed over,
        every other one is started and then claimed. */
    method RunQuests(userId: UserId, reply: Replies)
      modifies this
      ensures calls == old(calls) + [TaskList(userId)] + QuestActions(userId, reply.tasks, skipTaskIds)
    {
      var tasks := GetTask(userId, reply.tasks);
      if tasks.Some? {
        var ts := tasks.value;
        ghost var start := calls;
        for k := 0 to |ts|
          invariant calls == start + QuestPlan(userId, ts[..k], skipTaskIds)
        {
          var task := ts[k];
          QuestPlanNext(userId, ts, k, skipTaskIds);
          ghost var done := QuestPlan(userId, ts[..k], skipTaskIds);
          if task.id in skipTaskIds {
            ConcatAssoc(start, done, []);
            continue;
          }
          StartTask(userId, task);
          ClaimTask(userId, task);
          ConcatAssoc(start, done, [TaskStart(userId, task), TaskClaim(userId, task)]);
          assert calls == (start + done) + [TaskStart(userId, task), TaskClaim(userId, task)];
        }
        assert ts[..|ts|] == ts;
      }
    }

    /** One account once its line has parsed (main.js:196-234): log in, and
        only when that succeeds run the farm and the quests; then pause. */
    method RunAccount(initData: string, user: User, reply: Replies)
      modifies this
      ensures calls == old(calls) + AccountCalls(initData, user, reply, skipTaskIds)
    {
      var authResult := Authenticate(initData, reply.auth);
      if authResult.Some? {
        RunFarm(user.id, reply);
        RunQuests(user.id, reply);
      }
      calls := calls + [Pause];
    }

    /** An account whose line parsed to `user`, run as account `i` of pass
        `pass` (main.js:191-234). */
    method RunParsed(data: seq<string>, env: Env, pass: nat, i: nat, user: User, ghost base: seq<Call>)
      requires i < |data| && env.parse(data[i]) == Some(user)
      requires !Accounts(data, env.parse, BotStep(env, skipTaskIds, pass), i).crashed
      requires calls == base + Accounts(data, env.parse, BotStep(env, skipTaskIds, pass), i).calls
      modifies this
      ensures calls == base + Accounts(data, env.parse, BotStep(env, skipTaskIds, pass), i + 1).calls
      ensures !Accounts(data, env.parse, BotStep(env, skipTaskIds, pass), i + 1).crashed
    {
      ghost var step := BotStep(env, skipTaskIds, pass);
      ghost var prev := Accounts(data, env.parse, step, i).calls;
      AccountsNext(data, env.parse, step, i, user);
      RunAccount(data[i], user, env.replies(pass, i));
      BotStepCalls(env, skipTaskIds, pass, i, data[i], user);
      ConcatAssoc(base, prev, step(i, data[i], user));
    }

    /** One account of a round (main.js:189-235): parse its line, which
        throws when the line does not parse, then run the account. `base` is
        what was issued before the round. */
    method RunLine(data: seq<string>, env: Env, pass: nat, i: nat, ghost base: seq<Call>) returns (crashed: bool)
      requires i < |data| && !Accounts(data, env.parse, BotStep(env, skipTaskIds, pass), i).crashed
      requires calls == base + Accounts(data, env.parse, BotStep(env, skipTaskIds, pass), i).calls
      modifies this
      ensures calls == base + Accounts(data, env.parse, BotStep(env, skipTaskIds, pass), i + 1).calls
      ensures crashed == Accounts(data, env.parse, BotStep(env, skipTaskIds, pass), i + 1).crashed
    {
      var initData := data[i];
      var user := env.parse(initData);
      if user.None? {
        AccountsFail(data, env.parse, BotStep(env, skipTaskIds, pass), i);
        crashed := true;
      } else {
        RunParsed(data, env, pass, i, user.value, base);
        crashed := false;
      }
    }

    /** One round of `main`'s endless loop (main.js:188-237): every account in
        order, then the countdown; a line that does not parse throws, ending
        the round and the loop at once. */
    method RunPass(data: seq<string>, env: Env, pass: nat) returns (crashed: bool)
      modifies this
      ensures calls == old(calls) + Pass(data, env, skipTaskIds, pass).calls
      ensures crashed == Pass(data, env, skipTaskIds, pass).crashed
    {
      crashed := false;
      ghost var step := BotStep(env, skipTaskIds, pass);
      var i := 0;
      while i < |data| && !crashed
        invariant i <= |data|
        invariant !crashed ==> calls == old(calls) + Accounts(data, env.parse, step, i).calls
        invariant !crashed ==> !Accounts(data, env.parse, step, i).crashed
        invariant crashed ==> calls == old(calls) + Accounts(data, env.parse, step, |data|).calls
        invariant crashed ==> Accounts(data, env.parse, step, |data|).crashed
        decreases |data| - i, if crashed then 0 else 1
      {
        crashed := RunLine(data, env, pass, i, old(calls));
        if crashed {
          AccountsStayCrashed(data, env.parse, step, i + 1, |data|);
        } else {
          i := i + 1;
        }
      }
      if !crashed {
        Countdown(CountdownSeconds);
      }
    }

    /** `main` (main.js:179-239), cut off after `passes` rounds of its endless
        loop: the data file is read once, before the loop, and a line that does
        not parse throws out of the whole loop, so that the process exits
        (main.js:243-246). */
    method RunMain(raw: string, decode: string -> Option<User>, replies: (nat, nat) -> Replies, passes: nat)
      returns (crashed: bool)
      modifies this
      ensures var run := RunPasses(DataFile.Normalise(raw), Env(LineParser(decode), replies), skipTaskIds, passes);
              calls == old(calls) + run.calls && crashed == run.crashed
    {
      var data := DataFile.Normalise(raw);
      var env := Env(LineParser(decode), replies);
      crashed := false;
      var pass := 0;
      while pass < passes && !crashed
        invariant pass <= passes
        invariant calls == old(calls) + RunPasses(data, env, skipTaskIds, pass).calls
        invariant crashed == RunPasses(data, env, skipTaskIds, pass).crashed
      {
        crashed := RunPass(data, env, pass);
        pass := pass + 1;
      }
      if pass < passes {
        RunPassesStayCrashed(data, env, skipTaskIds, pass, passes);
      }
    }
  }
}
