/**
 * The database helper: a lazily created driver shared by the whole process,
 * and a query runner that retries with exponential backoff. The driver
 * library is replaced by oracle outcomes (whether creating a driver, opening a
 * session, running a query or closing the driver succeeds); what the helper
 * does with them (drivers created and closed, sessions opened and closed,
 * delays waited) is recorded in a ghost log.
 */
module Neo4jClient {
  import opened Wrappers
  import Decimal

  const ConfigError := "Neo4j environment variables are not properly configured"
  const FailurePrefix := "Query failed after "
  /** The first backoff delay, in milliseconds. */
  const BaseDelay: nat := 1000
  /** The number of attempts when the caller does not say. */
  const DefaultMaxRetries := 3

  /** `NEO4J_URI`, `NEO4J_USERNAME` and `NEO4J_PASSWORD`, each possibly unset. */
  datatype Env = Env(uri: Option<string>, username: Option<string>, password: Option<string>)

  /** Every variable set and non-empty. */
  predicate Configured(env: Env) {
    env.uri.Some? && env.uri.value != ""
    && env.username.Some? && env.username.value != ""
    && env.password.Some? && env.password.value != ""
  }

  /** The outcome of a library call whose value does not matter. */
  datatype Outcome = Done | Threw(message: string)

  type Record = map<string, string>

  /** The outcome of `session.run`. */
  datatype RunOutcome = Rows(records: seq<Record>) | RunFailed(message: string)

  /** What the library does on one query attempt: whether creating a driver
      (when one is needed) succeeds, whether `session()` succeeds, and what
      `run` yields. */
  datatype Script = Script(create: Outcome, open: Outcome, run: RunOutcome)

  datatype Event = DriverCreated | DriverClosed | SessionOpened | SessionClosed | Waited(ms: nat)

  /** A driver of the library; only its identity matters here. */
  class Driver {
    constructor ()
    {
    }
  }

  // ---------------------------------------------------------------------------
  // The retry policy, stated over the outcomes of the attempts

  /** What one attempt did: created the shared driver, opened a session, and
      either returned records or failed with a message. */
  datatype Attempt = Attempt(created: bool, session: bool, result: Result<seq<Record>, string>)

  /** One attempt `getDriver().session().run(…)`, from a state with or without
      a driver. */
  function RunAttempt(hasDriver: bool, env: Env, s: Script): (a: Attempt)
    ensures a.created <==> !hasDriver && Configured(env) && s.create.Done?
    ensures a.session <==> (hasDriver || (Configured(env) && s.create.Done?)) && s.open.Done?
    ensures a.result.Success? <==> a.session && s.run.Rows?
    ensures a.result.Success? ==> a.result.value == s.run.records
    ensures !hasDriver && !Configured(env) ==> a.result == Failure(ConfigError)
    ensures !hasDriver && Configured(env) && s.create.Threw? ==> a.result == Failure(s.create.message)
    ensures (hasDriver || (Configured(env) && s.create.Done?)) && s.open.Threw? ==> a.result == Failure(s.open.message)
    ensures a.session && s.run.RunFailed? ==> a.result == Failure(s.run.message)
  {
    if !hasDriver && !Configured(env) then Attempt(false, false, Failure(ConfigError))
    else if !hasDriver && s.create.Threw? then Attempt(false, false, Failure(s.create.message))
    else
      var created := !hasDriver;
      if s.open.Threw? then Attempt(created, false, Failure(s.open.message))
      else
        match s.run
        case Rows(records) => Attempt(created, true, Success(records))
        case RunFailed(message) => Attempt(created, true, Failure(message))
  }

  /** Whether a driver exists after the scripted attempts. */
  function DriverAfter(hasDriver: bool, env: Env, scripts: seq<Script>): bool
  {
    if scripts == [] then hasDriver
    else
      var p := scripts[..|scripts| - 1];
      DriverAfter(hasDriver, env, p) || RunAttempt(DriverAfter(hasDriver, env, p), env, scripts[|scripts| - 1]).created
  }

  /** The attempts the scripts give when run one after the other; a driver
      created by one attempt is reused by the next. */
  function Attempts(hasDriver: bool, env: Env, scripts: seq<Script>): (outs: seq<Attempt>)
    ensures |outs| == |scripts|
  {
    if scripts == [] then []
    else
      var p := scripts[..|scripts| - 1];
      Attempts(hasDriver, env, p) + [RunAttempt(DriverAfter(hasDriver, env, p), env, scripts[|scripts| - 1])]
  }

  /** The number of attempts allowed: `maxRetries`, none when it is not positive. */
  function AttemptLimit(maxRetries: int): (n: nat)
    ensures maxRetries >= 0 ==> n == maxRetries
    ensures maxRetries <= 0 ==> n == 0
  {
    if maxRetries < 0 then 0 else maxRetries
  }

  /** The index of the first successful attempt, or `|outs|` when all fail. */
  function FirstSuccess(outs: seq<Attempt>): (k: nat)
    ensures k <= |outs|
    ensures forall j :: 0 <= j < k ==> outs[j].result.Failure?
    ensures k < |outs| ==> outs[k].result.Success?
  {
    if outs == [] then 0
    else if outs[0].result.Success? then 0
    else 1 + FirstSuccess(outs[1..])
  }

  /** The attempts actually made: up to and including the first success. */
  function AttemptsMade(outs: seq<Attempt>): (m: nat)
    ensures m <= |outs|
  {
    if FirstSuccess(outs) < |outs| then FirstSuccess(outs) + 1 else |outs|
  }

  function Pow2(i: nat): (p: nat)
    ensures p >= 1
  {
    if i == 0 then 1 else 2 * Pow2(i - 1)
  }

  /** The delay after failed attempt `i`: `2^i * 1000` ms. */
  function Backoff(i: nat): nat {
    Pow2(i) * BaseDelay
  }

  /** `Query failed after N attempts: <message>`, the message of the last
      failure, or `undefined` when no attempt was made. */
  function FailureMessage(maxRetries: int, last: Option<string>): (m: string)
    ensures |m| >= |last.GetOr("undefined")| && m[|m| - |last.GetOr("undefined")|..] == last.GetOr("undefined")
  {
    FailurePrefix + Decimal.Format(maxRetries) + " attempts: " + last.GetOr("undefined")
  }

  /** Text that starts with `prefix`, then an integer, then a space: `parseInt`
      of what follows the prefix reads back the integer. */
  lemma CountAfter(prefix: string, n: int, tail: string)
    requires tail != [] && tail[0] == ' '
    ensures var m := prefix + Decimal.Format(n) + tail;
      |m| >= |prefix| && m[..|prefix|] == prefix && Decimal.ParseInt(m[|prefix|..]) == Some(n)
  {
    var m := prefix + Decimal.Format(n) + tail;
    assert m[|prefix|..] == Decimal.Format(n) + tail;
    Decimal.ParseFormatThen(n, tail);
  }

  /** The failure message starts with `Query failed after `, and `parseInt` of
      what follows reads back the attempt count. */
  lemma FailureMessageCount(maxRetries: int, last: Option<string>)
    ensures var m := FailureMessage(maxRetries, last);
      |m| >= |FailurePrefix| && m[..|FailurePrefix|] == FailurePrefix
      && Decimal.ParseInt(m[|FailurePrefix|..]) == Some(maxRetries)
  {
    var tail := " attempts: " + last.GetOr("undefined");
    assert FailureMessage(maxRetries, last) == FailurePrefix + Decimal.Format(maxRetries) + tail;
    CountAfter(FailurePrefix, maxRetries, tail);
  }

  /** The value `runQueryWithRetry` returns or throws, given the outcome every
      allowed attempt would have. */
  function RetryResult(maxRetries: int, outs: seq<Attempt>): Result<seq<Record>, string>
    requires |outs| == AttemptLimit(maxRetries)
  {
    var k := FirstSuccess(outs);
    if k < |outs| then Success(outs[k].result.value)
    else Failure(FailureMessage(maxRetries, if outs == [] then None else Some(outs[|outs| - 1].result.error)))
  }

  /** What attempt `i` logs: the driver it created, the session it opened, the
      backoff it waited after a failure (not after the last allowed attempt),
      and the close in `finally` of the session it opened. The wait happens in
      `catch`, before `finally` closes the session. */
  function AttemptEvents(a: Attempt, i: nat, maxRetries: int): (ev: seq<Event>)
    ensures a.session ==> |ev| >= 2 && ev[|ev| - 1] == SessionClosed
    ensures a.created ==> |ev| >= 1 && ev[0] == DriverCreated
  {
    (if a.created then [DriverCreated] else [])
    + (if a.session then [SessionOpened] else [])
    + (if a.result.Failure? && i < maxRetries - 1 then [Waited(Backoff(i))] else [])
    + (if a.session then [SessionClosed] else [])
  }

  function Events(outs: seq<Attempt>, maxRetries: int): seq<Event> {
    if outs == [] then []
    else Events(outs[..|outs| - 1], maxRetries) + AttemptEvents(outs[|outs| - 1], |outs| - 1, maxRetries)
  }

  /** The log of a whole `runQueryWithRetry` call. */
  function RetryEvents(maxRetries: int, outs: seq<Attempt>): seq<Event>
    requires |outs| == AttemptLimit(maxRetries)
  {
    Events(outs[..AttemptsMade(outs)], maxRetries)
  }

  lemma {:induction false} AttemptsPrefix(h: bool, env: Env, scripts: seq<Script>, k: nat)
    requires k <= |scripts|
    ensures Attempts(h, env, scripts[..k]) == Attempts(h, env, scripts)[..k]
    ensures DriverAfter(h, env, scripts[..k]) ==> DriverAfter(h, env, scripts)
  {
    if k < |scripts| {
      var p := scripts[..|scripts| - 1];
      assert p[..k] == scripts[..k];
      AttemptsPrefix(h, env, p, k);
    } else {
      assert scripts[..k] == scripts;
    }
  }

  /** Attempt `i` runs from the driver state the earlier attempts left. */
  lemma AttemptsStep(h: bool, env: Env, scripts: seq<Script>, i: nat)
    requires i < |scripts|
    ensures Attempts(h, env, scripts)[i] == RunAttempt(DriverAfter(h, env, scripts[..i]), env, scripts[i])
    ensures DriverAfter(h, env, scripts[..i + 1])
         == (DriverAfter(h, env, scripts[..i]) || Attempts(h, env, scripts)[i].created)
  {
    AttemptsPrefix(h, env, scripts, i + 1);
    assert scripts[..i + 1][..i] == scripts[..i];
  }

  /** Attempt `i` of the allowed `n` runs from the driver state the earlier
      attempts left, and leaves a driver when there was one or it created one. */
  lemma AttemptAt(h: bool, env: Env, scripts: seq<Script>, n: nat, i: nat)
    requires i < n <= |scripts|
    ensures Attempts(h, env, scripts[..n])[i] == RunAttempt(DriverAfter(h, env, scripts[..i]), env, scripts[i])
    ensures DriverAfter(h, env, scripts[..i + 1])
         == (DriverAfter(h, env, scripts[..i]) || Attempts(h, env, scripts[..n])[i].created)
  {
    AttemptsStep(h, env, scripts[..n], i);
    assert scripts[..n][..i] == scripts[..i] && scripts[..n][..i + 1] == scripts[..i + 1];
    assert scripts[..n][i] == scripts[i];
  }

  lemma EventsSnoc(outs: seq<Attempt>, i: nat, maxRetries: int)
    requires i < |outs|
    ensures Events(outs[..i + 1], maxRetries) == Events(outs[..i], maxRetries) + AttemptEvents(outs[i], i, maxRetries)
  {
    assert outs[..i + 1][..i] == outs[..i];
  }

  /** The log after attempt `i` extends the log before it by that attempt's events. */
  lemma LogGrows(start: seq<Event>, before: seq<Event>, after: seq<Event>, outs: seq<Attempt>, i: nat, maxRetries: int)
    requires i < |outs|
    requires before == start + Events(outs[..i], maxRetries)
    requires after == before + AttemptEvents(outs[i], i, maxRetries)
    ensures after == start + Events(outs[..i + 1], maxRetries)
  {
    EventsSnoc(outs, i, maxRetries);
  }

  /** The first success ends the loop: its records are returned and no later
      attempt is made. */
  lemma FirstSuccessReturned(maxRetries: int, outs: seq<Attempt>, k: nat)
    requires |outs| == AttemptLimit(maxRetries)
    requires k < |outs| && outs[k].result.Success?
    requires forall j :: 0 <= j < k ==> outs[j].result.Failure?
    ensures RetryResult(maxRetries, outs) == Success(outs[k].result.value)
    ensures AttemptsMade(outs) == k + 1
    ensures RetryEvents(maxRetries, outs) == Events(outs[..k + 1], maxRetries)
  {
    assert FirstSuccess(outs) == k;
  }

  /** When every allowed attempt fails, all of them are made and the error
      names the attempt count and the message of the last failure only. */
  lemma AllFailed(maxRetries: int, outs: seq<Attempt>)
    requires |outs| == AttemptLimit(maxRetries)
    requires forall j :: 0 <= j < |outs| ==> outs[j].result.Failure?
    ensures AttemptsMade(outs) == |outs|
    ensures RetryEvents(maxRetries, outs) == Events(outs, maxRetries)
    ensures RetryResult(maxRetries, outs)
         == Failure(FailurePrefix + Decimal.Format(maxRetries) + " attempts: "
                    + (if outs == [] then "undefined" else outs[|outs| - 1].result.error))
  {
    assert FirstSuccess(outs) == |outs|;
    assert outs[..|outs|] == outs;
  }

  // ---------------------------------------------------------------------------
  // Backoff, sessions and drivers in the log

  /** The delays waited in a log, in order. */
  function Delays(ev: seq<Event>): seq<nat> {
    if ev == [] then []
    else Delays(ev[..|ev| - 1]) + (if ev[|ev| - 1].Waited? then [ev[|ev| - 1].ms] else [])
  }

  /** The backoff schedule `1000, 2000, 4000, …` for the first `m` failures. */
  function Schedule(m: nat): seq<nat> {
    seq(m, i requires 0 <= i < m => Backoff(i))
  }

  function Sum(s: seq<nat>): nat {
    if s == [] then 0 else Sum(s[..|s| - 1]) + s[|s| - 1]
  }

  lemma {:induction false} DelaysAppend(a: seq<Event>, b: seq<Event>)
    ensures Delays(a + b) == Delays(a) + Delays(b)
  {
    if b == [] {
      assert a + b == a;
    } else {
      assert (a + b)[..|a + b| - 1] == a + b[..|b| - 1];
      DelaysAppend(a, b[..|b| - 1]);
    }
  }

  lemma AttemptDelays(o: Attempt, i: nat, maxRetries: int)
    ensures Delays(AttemptEvents(o, i, maxRetries))
         == if o.result.Failure? && i < maxRetries - 1 then [Backoff(i)] else []
  {
    var c := if o.created then [DriverCreated] else [];
    var s := if o.session then [SessionOpened] else [];
    var w := if o.result.Failure? && i < maxRetries - 1 then [Waited(Backoff(i))] else [];
    var e := if o.session then [SessionClosed] else [];
    DelaysAppend(c + s + w, e);
    DelaysAppend(c + s, w);
    DelaysAppend(c, s);
    assert Delays(w) == if w == [] then [] else [Backoff(i)] by {
      if w != [] { assert w[..0] == []; }
    }
  }

  lemma EventsSnocDelays(outs: seq<Attempt>, m: nat, maxRetries: int)
    requires 0 < m <= |outs|
    ensures Delays(Events(outs[..m], maxRetries))
         == Delays(Events(outs[..m - 1], maxRetries)) + Delays(AttemptEvents(outs[m - 1], m - 1, maxRetries))
  {
    EventsSnoc(outs, m - 1, maxRetries);
    DelaysAppend(Events(outs[..m - 1], maxRetries), AttemptEvents(outs[m - 1], m - 1, maxRetries));
  }

  lemma ScheduleSnoc(m: nat)
    ensures Schedule(m + 1) == Schedule(m) + [Backoff(m)]
  {
  }

  /** Failed attempts that are not the last allowed one each wait their
      backoff, in order. */
  lemma {:induction false} FailuresWait(outs: seq<Attempt>, m: nat, maxRetries: int)
    requires m <= |outs| && m < maxRetries
    requires forall j :: 0 <= j < m ==> outs[j].result.Failure?
    ensures Delays(Events(outs[..m], maxRetries)) == Schedule(m)
  {
    if m > 0 {
      FailuresWait(outs, m - 1, maxRetries);
      EventsSnocDelays(outs, m, maxRetries);
      AttemptDelays(outs[m - 1], m - 1, maxRetries);
      ScheduleSnoc(m - 1);
    } else {
      assert outs[..0] == [];
    }
  }

  /** The attempts made before the last one made all failed, so each waited
      its backoff. */
  lemma EarlierAttemptsWait(maxRetries: int, outs: seq<Attempt>)
    requires |outs| == AttemptLimit(maxRetries) && AttemptsMade(outs) > 0
    ensures Delays(Events(outs[..AttemptsMade(outs) - 1], maxRetries)) == Schedule(AttemptsMade(outs) - 1)
  {
    var m := AttemptsMade(outs);
    assert forall j :: 0 <= j < m - 1 ==> outs[j].result.Failure?;
    FailuresWait(outs, m - 1, maxRetries);
  }

  /** The last attempt made does not wait: it succeeded, or it was the last
      one allowed. */
  lemma LastAttemptDoesNotWait(maxRetries: int, outs: seq<Attempt>)
    requires |outs| == AttemptLimit(maxRetries) && AttemptsMade(outs) > 0
    ensures Delays(AttemptEvents(outs[AttemptsMade(outs) - 1], AttemptsMade(outs) - 1, maxRetries)) == []
  {
    var m := AttemptsMade(outs);
    assert outs[m - 1].result.Success? || m - 1 == maxRetries - 1;
    AttemptDelays(outs[m - 1], m - 1, maxRetries);
  }

  /** The waits of a call: the backoff after each failed attempt except the
      last allowed one, i.e. `2^i * 1000` ms after attempt `i`, and no wait
      after the attempt that succeeds. */
  lemma BackoffSchedule(maxRetries: int, outs: seq<Attempt>)
    requires |outs| == AttemptLimit(maxRetries)
    ensures Delays(RetryEvents(maxRetries, outs))
         == Schedule(if AttemptsMade(outs) == 0 then 0 else AttemptsMade(outs) - 1)
  {
    var m := AttemptsMade(outs);
    assert RetryEvents(maxRetries, outs) == Events(outs[..m], maxRetries);
    if m == 0 {
      assert outs[..0] == [];
    } else {
      EarlierAttemptsWait(maxRetries, outs);
      LastAttemptDoesNotWait(maxRetries, outs);
      EventsSnocDelays(outs, m, maxRetries);
      assert Schedule(m - 1) + [] == Schedule(m - 1);
    }
  }

  lemma {:induction false} ScheduleSum(m: nat)
    ensures Sum(Schedule(m)) == BaseDelay * (Pow2(m) - 1)
  {
    if m > 0 {
      ScheduleSum(m - 1);
      assert Schedule(m)[..m - 1] == Schedule(m - 1);
    }
  }

  /** When all `n >= 1` attempts fail, the waits add up to `1000 * (2^(n-1) - 1)` ms. */
  lemma TotalBackoff(maxRetries: int, outs: seq<Attempt>)
    requires maxRetries >= 1 && |outs| == maxRetries
    requires forall j :: 0 <= j < |outs| ==> outs[j].result.Failure?
    ensures Sum(Delays(RetryEvents(maxRetries, outs))) == BaseDelay * (Pow2(maxRetries - 1) - 1)
  {
    AllFailed(maxRetries, outs);
    BackoffSchedule(maxRetries, outs);
    ScheduleSum(maxRetries - 1);
  }

  /** With the default of three attempts all failing, the call waits 1 s and
      then 2 s, and reports three attempts. */
  lemma DefaultRetryWaits(outs: seq<Attempt>)
    requires |outs| == DefaultMaxRetries
    requires forall j :: 0 <= j < |outs| ==> outs[j].result.Failure?
    ensures Delays(RetryEvents(DefaultMaxRetries, outs)) == [1000, 2000]
    ensures RetryResult(DefaultMaxRetries, outs).Failure?
  {
    AllFailed(DefaultMaxRetries, outs);
    BackoffSchedule(DefaultMaxRetries, outs);
    assert Schedule(2) == [Backoff(0), Backoff(1)];
    assert Pow2(1) == 2;
  }

  /** No more than `maxRetries` attempts are made, and none at all when it is
      not positive: the call then fails at once with `undefined` as the last
      message. */
  lemma AttemptBound(maxRetries: int, outs: seq<Attempt>)
    requires |outs| == AttemptLimit(maxRetries)
    ensures AttemptsMade(outs) <= AttemptLimit(maxRetries)
    ensures maxRetries <= 0 ==> RetryEvents(maxRetries, outs) == []
    ensures maxRetries <= 0 ==> RetryResult(maxRetries, outs) == Failure(FailureMessage(maxRetries, None))
  {
    if maxRetries <= 0 {
      assert outs[..0] == [];
    }
  }

  /** Replaying `ev` from a state with (`open`) or without an open session: no
      session is opened while one is open, none is closed that is not open,
      and none is open at the end. */
  predicate SessionsBalanced(ev: seq<Event>, open: bool) {
    if ev == [] then !open
    else
      match ev[0]
      case SessionOpened => !open && SessionsBalanced(ev[1..], true)
      case SessionClosed => open && SessionsBalanced(ev[1..], false)
      case _ => SessionsBalanced(ev[1..], open)
  }

  lemma {:induction false} BalancedAppend(a: seq<Event>, b: seq<Event>, open: bool)
    requires SessionsBalanced(a, open) && SessionsBalanced(b, false)
    ensures SessionsBalanced(a + b, open)
  {
    if a == [] {
      assert a + b == b;
    } else {
      assert (a + b)[1..] == a[1..] + b;
      match a[0]
      case SessionOpened => BalancedAppend(a[1..], b, true);
      case SessionClosed => BalancedAppend(a[1..], b, false);
      case _ => BalancedAppend(a[1..], b, open);
    }
  }

  lemma AttemptBalanced(o: Attempt, i: nat, maxRetries: int)
    ensures SessionsBalanced(AttemptEvents(o, i, maxRetries), false)
  {
    var w := if o.result.Failure? && i < maxRetries - 1 then [Waited(Backoff(i))] else [];
    var tail := w + (if o.session then [SessionClosed] else []);
    assert SessionsBalanced(tail, o.session) by {
      if w != [] { assert tail[1..] == (if o.session then [SessionClosed] else []); }
      else { assert tail == (if o.session then [SessionClosed] else []); }
      if o.session { assert [SessionClosed][1..] == []; }
    }
    var middle := (if o.session then [SessionOpened] else []) + tail;
    assert SessionsBalanced(middle, false) by {
      if o.session { assert middle[1..] == tail; } else { assert middle == tail; }
    }
    var all := (if o.created then [DriverCreated] else []) + middle;
    assert SessionsBalanced(all, false) by {
      if o.created { assert all[1..] == middle; } else { assert all == middle; }
    }
    assert AttemptEvents(o, i, maxRetries) == all;
  }

  lemma {:induction false} EventsBalanced(outs: seq<Attempt>, maxRetries: int)
    ensures SessionsBalanced(Events(outs, maxRetries), false)
  {
    if outs != [] {
      EventsBalanced(outs[..|outs| - 1], maxRetries);
      AttemptBalanced(outs[|outs| - 1], |outs| - 1, maxRetries);
      BalancedAppend(Events(outs[..|outs| - 1], maxRetries), AttemptEvents(outs[|outs| - 1], |outs| - 1, maxRetries), false);
    }
  }

  /** Every session a call opens is closed before the next is opened and
      before the call returns or throws, success or failure. */
  lemma SessionsClosed(maxRetries: int, outs: seq<Attempt>)
    requires |outs| == AttemptLimit(maxRetries)
    ensures SessionsBalanced(RetryEvents(maxRetries, outs), false)
  {
    EventsBalanced(outs[..AttemptsMade(outs)], maxRetries);
  }

  /** How many drivers a log records as created. */
  function Created(ev: seq<Event>): nat {
    if ev == [] then 0
    else Created(ev[..|ev| - 1]) + (if ev[|ev| - 1] == DriverCreated then 1 else 0)
  }

  lemma {:induction false} CreatedAppend(a: seq<Event>, b: seq<Event>)
    ensures Created(a + b) == Created(a) + Created(b)
  {
    if b == [] {
      assert a + b == a;
    } else {
      assert (a + b)[..|a + b| - 1] == a + b[..|b| - 1];
      CreatedAppend(a, b[..|b| - 1]);
    }
  }

  lemma AttemptCreated(o: Attempt, i: nat, maxRetries: int)
    ensures Created(AttemptEvents(o, i, maxRetries)) == if o.created then 1 else 0
  {
    var c := if o.created then [DriverCreated] else [];
    var s := if o.session then [SessionOpened] else [];
    var w := if o.result.Failure? && i < maxRetries - 1 then [Waited(Backoff(i))] else [];
    var e := if o.session then [SessionClosed] else [];
    CreatedAppend(c + s + w, e);
    CreatedAppend(c + s, w);
    CreatedAppend(c, s);
    assert c != [] ==> c[..0] == [];
    assert s != [] ==> s[..0] == [];
    assert w != [] ==> w[..0] == [];
    assert e != [] ==> e[..0] == [];
  }

  /** Across the attempts a driver is created at most once, and only when none
      existed: later attempts reuse it. */
  lemma {:induction false} CreatedOnce(h: bool, env: Env, scripts: seq<Script>, maxRetries: int)
    ensures Created(Events(Attempts(h, env, scripts), maxRetries)) == if !h && DriverAfter(h, env, scripts) then 1 else 0
  {
    if scripts != [] {
      var p := scripts[..|scripts| - 1];
      var outs := Attempts(h, env, scripts);
      var a := outs[|outs| - 1];
      assert outs[..|outs| - 1] == Attempts(h, env, p);
      assert a == RunAttempt(DriverAfter(h, env, p), env, scripts[|scripts| - 1]);
      assert Events(outs, maxRetries) == Events(Attempts(h, env, p), maxRetries) + AttemptEvents(a, |outs| - 1, maxRetries);
      DriverKept(h, env, p);
      CreatedOnce(h, env, p, maxRetries);
      AttemptCreated(a, |outs| - 1, maxRetries);
      CreatedAppend(Events(Attempts(h, env, p), maxRetries), AttemptEvents(a, |outs| - 1, maxRetries));
    }
  }

  lemma {:induction false} DriverKept(h: bool, env: Env, scripts: seq<Script>)
    ensures h ==> DriverAfter(h, env, scripts)
  {
    if scripts != [] {
      DriverKept(h, env, scripts[..|scripts| - 1]);
    }
  }

  /** One call of `runQueryWithRetry` creates at most one driver, and none
      when a driver already exists. */
  lemma DriverCreatedAtMostOnce(h: bool, env: Env, scripts: seq<Script>, maxRetries: int)
    requires maxRetries <= |scripts|
    ensures var outs := Attempts(h, env, scripts[..AttemptLimit(maxRetries)]);
      Created(RetryEvents(maxRetries, outs)) <= 1 && (h ==> Created(RetryEvents(maxRetries, outs)) == 0)
  {
    var allowed := scripts[..AttemptLimit(maxRetries)];
    var outs := Attempts(h, env, allowed);
    var m := AttemptsMade(outs);
    AttemptsPrefix(h, env, allowed, m);
    CreatedOnce(h, env, allowed[..m], maxRetries);
    DriverKept(h, env, allowed[..m]);
  }

  // ---------------------------------------------------------------------------
  // The module state

  /** The module-level `driver` of the helper, and a ghost log of what the
      helper asked of the library. */
  class Connection {
    var driver: Driver?
    ghost var log: seq<Event>

    constructor ()
      ensures driver == null && log == []
    {
      driver := null;
      log := [];
    }

    /** `getDriver`: the existing driver, or a new one when the environment is
        configured and the library creates it. */
    method GetDriver(env: Env, create: Outcome) returns (r: Result<Driver, string>)
      modifies this
      ensures old(driver) != null ==> r == Success(old(driver)) && driver == old(driver) && log == old(log)
      ensures old(driver) == null && !Configured(env) ==> r == Failure(ConfigError) && driver == null && log == old(log)
      ensures old(driver) == null && Configured(env) && create.Threw?
          ==> r == Failure(create.message) && driver == null && log == old(log)
      ensures old(driver) == null && Configured(env) && create.Done?
          ==> driver != null && fresh(driver) && r == Success(driver) && log == old(log) + [DriverCreated]
    {
      if driver == null {
        if !Configured(env) {
          return Failure(ConfigError);
        }
        if create.Threw? {
          return Failure(create.message);
        }
        driver := new Driver();
        log := log + [DriverCreated];
      }
      return Success(driver);
    }

    /** `closeDriver`: forgets the driver only when closing it succeeds; a
        failure to close is rethrown and keeps the driver. */
    method CloseDriver(close: Outcome) returns (r: Outcome)
      modifies this
      ensures old(driver) == null ==> r == Done && driver == null && log == old(log)
      ensures old(driver) != null && close.Done? ==> r == Done && driver == null && log == old(log) + [DriverClosed]
      ensures old(driver) != null && close.Threw? ==> r == close && driver == old(driver) && log == old(log)
    {
      if driver != null {
        if close.Threw? {
          return close;
        }
        driver := null;
        log := log + [DriverClosed];
      }
      return Done;
    }

    /** One pass of the loop body of `runQueryWithRetry`: open a session on the
        shared driver, run, wait after a failure that is not the last allowed
        attempt, and close the session that was opened. */
    method AttemptOnce(i: nat, maxRetries: int, env: Env, script: Script) returns (outcome: Result<seq<Record>, string>)
      modifies this
      ensures var a := RunAttempt(old(driver) != null, env, script);
        && outcome == a.result
        && log == old(log) + AttemptEvents(a, i, maxRetries)
        && (driver != null) == (old(driver) != null || a.created)
      ensures old(driver) != null ==> driver == old(driver)
      ensures old(driver) == null && driver != null ==> fresh(driver)
    {
      var session := false;
      var d := GetDriver(env, script.create);
      if d.Failure? {
        outcome := Failure(d.error);
      } else if script.open.Threw? {
        outcome := Failure(script.open.message);
      } else {
        session := true;
        log := log + [SessionOpened];
        match script.run
        case Rows(records) => outcome := Success(records);
        case RunFailed(message) => outcome := Failure(message);
      }
      if outcome.Failure? && i < maxRetries - 1 {
        log := log + [Waited(Pow2(i) * BaseDelay)];
      }
      if session {
        log := log + [SessionClosed];
      }
    }

    /** `runQueryWithRetry`: at most `maxRetries` attempts, the records of the
        first that succeeds, else an error naming the last failure. `scripts`
        gives the library's behaviour on each allowed attempt. */
    method RunQueryWithRetry(maxRetries: int, env: Env, scripts: seq<Script>) returns (r: Result<seq<Record>, string>)
      requires maxRetries <= |scripts|
      modifies this
      ensures var outs := Attempts(old(driver) != null, env, scripts[..AttemptLimit(maxRetries)]);
        && r == RetryResult(maxRetries, outs)
        && log == old(log) + RetryEvents(maxRetries, outs)
        && (driver != null) == DriverAfter(old(driver) != null, env, scripts[..AttemptsMade(outs)])
      ensures old(driver) != null ==> driver == old(driver)
      ensures old(driver) == null && driver != null ==> fresh(driver)
    {
      ghost var h := driver != null;
      ghost var n := AttemptLimit(maxRetries);
      ghost var all := Attempts(h, env, scripts[..n]);
      var lastError: Option<string> := None;
      var i := 0;
      while i < maxRetries
        invariant 0 <= i <= n
        invariant i <= FirstSuccess(all)
        invariant lastError == if i == 0 then None else Some(all[i - 1].result.error)
        invariant (driver != null) == DriverAfter(h, env, scripts[..i])
        invariant log == old(log) + Events(all[..i], maxRetries)
        invariant old(driver) != null ==> driver == old(driver)
        invariant old(driver) == null && driver != null ==> fresh(driver)
      {
        AttemptAt(h, env, scripts, n, i);
        ghost var before := log;
        var outcome := AttemptOnce(i, maxRetries, env, scripts[i]);
        assert outcome == all[i].result;
        LogGrows(old(log), before, log, all, i, maxRetries);
        if outcome.Success? {
          FirstSuccessReturned(maxRetries, all, i);
          return outcome;
        }
        assert all[i].result.Failure?;
        lastError := Some(outcome.error);
        i := i + 1;
      }
      assert i == |all|;
      assert all[..i] == all;
      AllFailed(maxRetries, all);
      return Failure(FailureMessage(maxRetries, lastError));
    }
  }
}
