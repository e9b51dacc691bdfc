/** `distributed-lock.service.ts`: the Redis key with its expiry, runs of lock operations by any
    number of nodes, and the service that retries, renews and releases. */
module DistributedLock {
  import opened Wrappers

  /** A time to live in milliseconds; Redis rejects `PX 0`. */
  type Ttl = ms: int | 1 <= ms witness 1

  datatype Entry = Entry(token: string, expiresAt: int)

  datatype Server = Server(now: int, store: map<string, Entry>)

  /** The token a `GET` returns: none once the key's time is up. */
  function Holder(s: Server, key: string): (token: Option<string>) {
    if key in s.store && s.now < s.store[key].expiresAt then Some(s.store[key].token) else None
  }

  /** What any node, or the clock, does next. */
  datatype Event =
    | Acquire(key: string, token: string, ttl: Ttl)
    | Extend(key: string, token: string, ttl: Ttl)
    | Release(key: string, token: string)
    | Advance(ms: nat)

  /** `SET key token PX ttl NX`, the two token-checking Lua scripts, and the passing of time. */
  function Step(s: Server, e: Event): (s': Server) {
    match e
    case Acquire(key, token, ttl) =>
      if Holder(s, key) == None then s.(store := s.store[key := Entry(token, s.now + ttl)]) else s
    case Extend(key, token, ttl) =>
      if Holder(s, key) == Some(token) then s.(store := s.store[key := Entry(token, s.now + ttl)]) else s
    case Release(key, token) =>
      if Holder(s, key) == Some(token) then s.(store := s.store - {key}) else s
    case Advance(ms) => s.(now := s.now + ms)
  }

  function Run(s: Server, es: seq<Event>): (s': Server) {
    if es == [] then s else Step(Run(s, es[..|es| - 1]), es[|es| - 1])
  }

  /** The server just before event number `i` of a run. */
  function At(s: Server, es: seq<Event>, i: nat): (si: Server)
    requires i <= |es|
  {
    Run(s, es[..i])
  }

  lemma AtNext(s: Server, es: seq<Event>, i: nat)
    requires i < |es|
    ensures At(s, es, i + 1) == Step(At(s, es, i), es[i])
  {
    assert es[..i + 1][..i] == es[..i];
  }

  // ---------------------------------------------------------------------------------------
  // Safety
  // ---------------------------------------------------------------------------------------

  predicate Succeeds(s: Server, e: Event) {
    e.Acquire? && Holder(s, e.key) == None
  }

  /** The moment the lock of `token` runs out. */
  predicate RunsOut(s: Server, e: Event, key: string, token: string) {
    e.Advance? && Holder(s, key) == Some(token) && Holder(Step(s, e), key) == None
  }

  /** A held lock goes away only by its holder's release or by running out. */
  lemma LockChangesHands(s: Server, e: Event, key: string, token: string)
    requires Holder(s, key) == Some(token)
    ensures Holder(Step(s, e), key) == Some(token) <==> e != Release(key, token) && !RunsOut(s, e, key, token)
    ensures e.Acquire? && e.key == key ==> Step(s, e) == s
  {
  }

  /** From a successful acquire on, while the holder has not released and the lock has not run out,
      the holder's token stays and every other acquire of the key fails. */
  lemma {:induction false} HeldUntilReleasedOrExpired(s: Server, es: seq<Event>, i: nat, n: nat)
    requires i < n <= |es|
    requires Succeeds(At(s, es, i), es[i])
    requires forall m :: i < m < n ==>
               es[m] != Release(es[i].key, es[i].token) && !RunsOut(At(s, es, m), es[m], es[i].key, es[i].token)
    ensures Holder(At(s, es, n), es[i].key) == Some(es[i].token)
    ensures n < |es| && es[n].Acquire? && es[n].key == es[i].key ==> At(s, es, n + 1) == At(s, es, n)
    decreases n
  {
    if n < |es| {
      AtNext(s, es, n);
    }
    AtNext(s, es, n - 1);
    if n > i + 1 {
      HeldUntilReleasedOrExpired(s, es, i, n - 1);
      LockChangesHands(At(s, es, n - 1), es[n - 1], es[i].key, es[i].token);
    }
  }

  /** Mutual exclusion over every run: between two successful acquires of one key, the first
      holder released it or its lock ran out. */
  lemma AcquiresAreSeparated(s: Server, es: seq<Event>, i: nat, j: nat) returns (m: nat)
    requires i < j < |es|
    requires es[i].Acquire? && es[j].Acquire? && es[i].key == es[j].key
    requires Succeeds(At(s, es, i), es[i]) && Succeeds(At(s, es, j), es[j])
    ensures i < m < j
    ensures es[m] == Release(es[i].key, es[i].token) || RunsOut(At(s, es, m), es[m], es[i].key, es[i].token)
  {
    if m' :| i < m' < j && (es[m'] == Release(es[i].key, es[i].token)
                            || RunsOut(At(s, es, m'), es[m'], es[i].key, es[i].token)) {
      m := m';
    } else {
      HeldUntilReleasedOrExpired(s, es, i, j);
      assert false;
    }
  }

  /** A token that lost the key never gets it back, as every acquire makes a new token; from then
      on releases and renewals with it change nothing at all. */
  lemma {:induction false} SupersededTokenIsInert(s: Server, es: seq<Event>, key: string, token: string, j: nat, n: nat)
    requires j <= n <= |es|
    requires Holder(At(s, es, j), key) != Some(token)
    requires forall m :: j <= m < |es| && es[m].Acquire? && es[m].key == key ==> es[m].token != token
    ensures Holder(At(s, es, n), key) != Some(token)
    ensures n < |es| && (es[n] == Release(key, token) || (es[n].Extend? && es[n].key == key && es[n].token == token))
            ==> At(s, es, n + 1) == At(s, es, n)
    decreases n
  {
    if n < |es| {
      AtNext(s, es, n);
    }
    if n > j {
      SupersededTokenIsInert(s, es, key, token, j, n - 1);
      AtNext(s, es, n - 1);
    }
  }

  // ---------------------------------------------------------------------------------------
  // Renewal
  // ---------------------------------------------------------------------------------------

  /** Either the holder's renewal timer fires, or anyone else (or the clock) does something. */
  datatype TimedEvent = Renew | Other(event: Event)

  /** `due`: when the interval timer should fire next. */
  datatype Timed = Timed(server: Server, due: int)

  function TimedStep(s: Timed, e: TimedEvent, key: string, token: string, ttl: Ttl): (s': Timed) {
    match e
    case Renew => Timed(Step(s.server, Extend(key, token, ttl)), s.server.now + ttl / 2)
    case Other(event) => s.(server := Step(s.server, event))
  }

  function TimedRun(s: Timed, es: seq<TimedEvent>, key: string, token: string, ttl: Ttl): (s': Timed)
    decreases |es|
  {
    if es == [] then s else TimedRun(TimedStep(s, es[0], key, token, ttl), es[1..], key, token, ttl)
  }

  /** The timer is never `late` milliseconds or more behind; the token is used by its owner alone,
      who does not release in this stretch. */
  ghost predicate Timely(s: Timed, es: seq<TimedEvent>, key: string, token: string, ttl: Ttl, late: int)
    decreases |es|
  {
    es == [] ||
    (var s' := TimedStep(s, es[0], key, token, ttl);
     && s'.server.now < s'.due + late
     && (es[0].Other? ==> !es[0].event.Advance? ==> es[0].event.token != token)
     && Timely(s', es[1..], key, token, ttl, late))
  }

  /** Renewal keeps a held lock: while each renewal runs less than `ttl - floor(ttl / 2)` after it
      is due, the key does not expire, whatever other nodes try and however long it takes. */
  lemma {:induction false} RenewalKeepsLock(s: Timed, es: seq<TimedEvent>, key: string, token: string, ttl: Ttl)
    requires key in s.server.store
    requires s.server.store[key] == Entry(token, s.due - ttl / 2 + ttl)
    requires s.server.now < s.due + ttl - ttl / 2
    requires Timely(s, es, key, token, ttl, ttl - ttl / 2)
    ensures Holder(TimedRun(s, es, key, token, ttl).server, key) == Some(token)
    decreases |es|
  {
    if es != [] {
      RenewalKeepsLock(TimedStep(s, es[0], key, token, ttl), es[1..], key, token, ttl);
    }
  }

  /** The same from the acquire: the timer is set going with the key. */
  lemma AcquiredLockStaysHeld(s: Server, es: seq<TimedEvent>, key: string, token: string, ttl: Ttl)
    requires Succeeds(s, Acquire(key, token, ttl))
    requires Timely(Timed(Step(s, Acquire(key, token, ttl)), s.now + ttl / 2), es, key, token, ttl,
        ttl - ttl / 2)
    ensures var start := Timed(Step(s, Acquire(key, token, ttl)), s.now + ttl / 2);
            Holder(TimedRun(start, es, key, token, ttl).server, key) == Some(token)
  {
    RenewalKeepsLock(Timed(Step(s, Acquire(key, token, ttl)), s.now + ttl / 2), es, key, token, ttl);
  }

  /** The bound is exact: one renewal that is later than that by a millisecond finds the key gone. */
  lemma LateRenewalLosesLock(s: Server, key: string, token: string, ttl: Ttl)
    requires Succeeds(s, Acquire(key, token, ttl))
    ensures var start := Timed(Step(s, Acquire(key, token, ttl)), s.now + ttl / 2);
            var es := [Other(Advance(ttl))];
            && Timely(start, es, key, token, ttl, ttl - ttl / 2 + 1)
            && Holder(TimedRun(start, es + [Renew], key, token, ttl).server, key) == None
  {
    var start := Timed(Step(s, Acquire(key, token, ttl)), s.now + ttl / 2);
    var es := [Other(Advance(ttl))];
    var late := TimedStep(start, es[0], key, token, ttl);
    assert (es + [Renew])[1..] == [Renew] && [Renew][1..] == [] && es[1..] == [];
    assert TimedRun(start, es + [Renew], key, token, ttl) == TimedRun(late, [Renew], key, token, ttl);
    assert TimedRun(late, [Renew], key, token, ttl) == TimedStep(late, Renew, key, token, ttl);
  }

  /** `rounds` renewals, each exactly when due. */
  function OnTime(ttl: Ttl, rounds: nat): (es: seq<TimedEvent>) {
    if rounds == 0 then [] else [Other(Advance(ttl / 2)), Renew] + OnTime(ttl, rounds - 1)
  }

  /** A renewal at its due time finds the key held, as half of a time to live is less than all of it,
      and gives it a whole one again. */
  lemma DueRenewalExtends(s: Timed, key: string, token: string, ttl: Ttl)
    requires key in s.server.store && s.server.store[key] == Entry(token, s.server.now + ttl)
    requires s.due == s.server.now + ttl / 2
    ensures var waited := TimedStep(s, Other(Advance(ttl / 2)), key, token, ttl);
      && waited.server.now == s.due && Holder(waited.server, key) == Some(token)
      && TimedStep(waited, Renew, key, token, ttl)
         == Timed(Server(s.due, s.server.store[key := Entry(token, s.due + ttl)]), s.due + ttl / 2)
  {
  }

  /** So a lock renewed on time is held for any number of rounds, with a whole time to live after each,
      and the rounds take half of one apiece. */
  lemma {:induction false} RenewedOnTime(s: Timed, key: string, token: string, ttl: Ttl, rounds: nat)
    requires key in s.server.store && s.server.store[key] == Entry(token, s.server.now + ttl)
    requires s.due == s.server.now + ttl / 2
    ensures var end := TimedRun(s, OnTime(ttl, rounds), key, token, ttl);
      && end.server.now == s.server.now + rounds * (ttl / 2)
      && key in end.server.store && end.server.store[key] == Entry(token, end.server.now + ttl)
    decreases rounds
  {
    if rounds > 0 {
      DueRenewalExtends(s, key, token, ttl);
      var waited := TimedStep(s, Other(Advance(ttl / 2)), key, token, ttl);
      var renewed := TimedStep(waited, Renew, key, token, ttl);
      var es := OnTime(ttl, rounds);
      assert es[1..] == [Renew] + OnTime(ttl, rounds - 1) && es[1..][1..] == OnTime(ttl, rounds - 1);
      assert TimedRun(s, es, key, token, ttl) == TimedRun(waited, es[1..], key, token, ttl)
          == TimedRun(renewed, es[1..][1..], key, token, ttl);
      RenewedOnTime(renewed, key, token, ttl, rounds - 1);
      assert rounds * (ttl / 2) == ttl / 2 + (rounds - 1) * (ttl / 2);
    }
  }

  // ---------------------------------------------------------------------------------------
  // The service
  // ---------------------------------------------------------------------------------------

  /** How a call to Redis ends: answered, or with an error, when it may yet have been applied. */
  datatype Reply = Answered | Failed(applied: bool)

  /** The server after a command, which it may have carried out though no answer came. */
  function Sent(s: Server, e: Event, reply: Reply): (s': Server) {
    if reply.Answered? || reply.applied then Step(s, e) else s
  }

  /** One round of the retry loop: the reply to its `SET`, and what happens while it sleeps. */
  datatype Attempt = Attempt(reply: Reply, meanwhile: seq<Event>)

  /** The server after a round that did not win the lock and slept. */
  function AfterLoss(s: Server, want: Event, a: Attempt): (s': Server) {
    Run(Sent(s, want, a.reply), a.meanwhile)
  }

  /** The server as round number `n` finds it, no earlier round having won. */
  function BeforeRound(s: Server, want: Event, plan: seq<Attempt>, n: nat): (s': Server)
    requires n <= |plan|
  {
    if n == 0 then s else AfterLoss(BeforeRound(s, want, plan, n - 1), want, plan[n - 1])
  }

  /** What reaches the server in a round: the command if it was answered or applied, then what happens
      during the sleep. */
  function Sends(want: Event, a: Attempt): (es: seq<Event>) {
    (if a.reply == Answered || a.reply == Failed(true) then [want] else []) + a.meanwhile
  }

  lemma OneRound(s: Server, want: Event, a: Attempt)
    ensures AfterLoss(s, want, a) == Run(s, Sends(want, a))
  {
    var sent := if a.reply == Answered || a.reply == Failed(true) then [want] else [];
    RunAppend(s, sent, a.meanwhile);
    assert [want][..0] == [];
    assert Run(s, sent) == Sent(s, want, a.reply);
  }

  /** Round after round, in order. */
  function History(want: Event, plan: seq<Attempt>): (es: seq<Event>) {
    if plan == [] then [] else History(want, plan[..|plan| - 1]) + Sends(want, plan[|plan| - 1])
  }

  /** The server as a round finds it has seen just what reached it in the rounds before. */
  lemma {:induction false} RoundsAreARun(s: Server, want: Event, plan: seq<Attempt>, n: nat)
    requires n <= |plan|
    ensures BeforeRound(s, want, plan, n) == Run(s, History(want, plan[..n]))
    decreases n
  {
    if n > 0 {
      RoundsAreARun(s, want, plan, n - 1);
      OneRound(BeforeRound(s, want, plan, n - 1), want, plan[n - 1]);
      assert plan[..n][..n - 1] == plan[..n - 1] && plan[..n][n - 1] == plan[n - 1];
      RunAppend(s, History(want, plan[..n - 1]), Sends(want, plan[n - 1]));
    }
  }

  lemma {:induction false} RunAppend(s: Server, a: seq<Event>, b: seq<Event>)
    ensures Run(s, a + b) == Run(Run(s, a), b)
    decreases |b|
  {
    if b == [] {
      assert a + b == a;
    } else {
      RunAppend(s, a, b[..|b| - 1]);
      assert (a + b)[..|a + b| - 1] == a + b[..|b| - 1];
    }
  }

  predicate Wins(s: Server, want: Event, plan: seq<Attempt>, n: nat)
    requires n < |plan|
  {
    plan[n].reply.Answered? && Succeeds(BeforeRound(s, want, plan, n), want)
  }

  datatype Lock = Lock(key: string, token: string)

  datatype Timer = Timer(token: string, ttl: Ttl, interval: nat)

  class Redis {
    var server: Server

    constructor (server: Server)
      ensures this.server == server
    {
      this.server := server;
    }

    /** Sends a command; `true` when it was answered and took effect. */
    method Send(e: Event, reply: Reply) returns (done: bool)
      requires !e.Advance?
      modifies this
      ensures server == Sent(old(server), e, reply)
      ensures done <==> reply.Answered? &&
                        Holder(old(server), e.key) == if e.Acquire? then None else Some(e.token)
    {
      done := reply.Answered? && Holder(server, e.key) == if e.Acquire? then None else Some(e.token);
      server := Sent(server, e, reply);
    }

    method Elapse(events: seq<Event>)
      modifies this
      ensures server == Run(old(server), events)
    {
      server := Run(server, events);
    }
  }

  class DistributedLockService {
    const redis: Redis
    var activeLocks: map<string, Timer>

    constructor (redis: Redis)
      ensures this.redis == redis && activeLocks == map[]
    {
      this.redis := redis;
      activeLocks := map[];
    }

    /** `acquireLock` with `|plan| - 1` retries and a fresh token: the lock is won at the first
        answered round that finds the key free, or not at all. */
    method AcquireLock(key: string, token: string, ttl: Ttl, plan: seq<Attempt>) returns (lock: Option<Lock>)
      requires |plan| >= 1
      modifies redis, this
      ensures lock.Some? ==>
        && lock.value == Lock(key, token)
        && (exists n: nat :: n < |plan|
              && Wins(old(redis.server), Acquire(key, token, ttl), plan, n)
              && (forall m: nat :: m < n ==> !Wins(old(redis.server), Acquire(key, token, ttl), plan, m))
              && redis.server == Step(BeforeRound(old(redis.server), Acquire(key, token, ttl), plan, n),
                                      Acquire(key, token, ttl)))
        && Holder(redis.server, key) == Some(token)
        && activeLocks == old(activeLocks)[key := Timer(token, ttl, ttl / 2)]
      ensures lock.None? ==>
        && (forall n: nat :: n < |plan| ==> !Wins(old(redis.server), Acquire(key, token, ttl), plan, n))
        && activeLocks == old(activeLocks)
    {
      var want := Acquire(key, token, ttl);
      for attempt := 0 to |plan|
        invariant attempt < |plan| ==> redis.server == BeforeRound(old(redis.server), want, plan, attempt)
        invariant forall n: nat :: n < attempt ==> !Wins(old(redis.server), want, plan, n)
        invariant activeLocks == old(activeLocks)
      {
        var ok := redis.Send(want, plan[attempt].reply);
        if ok {
          StartLockRenewal(Lock(key, token), ttl);
          return Some(Lock(key, token));
        }
        if attempt < |plan| - 1 {
          redis.Elapse(plan[attempt].meanwhile);
        }
      }
      return None;
    }

    /** `releaseLock`: stops the key's timer, then deletes the key only under its own token. */
    method ReleaseLock(lock: Lock, reply: Reply) returns (released: bool)
      modifies redis, this
      ensures activeLocks == old(activeLocks) - {lock.key}
      ensures released <==> reply.Answered? && Holder(old(redis.server), lock.key) == Some(lock.token)
      ensures released ==> Holder(redis.server, lock.key) == None
      ensures redis.server == Sent(old(redis.server), Release(lock.key, lock.token), reply)
      ensures Holder(old(redis.server), lock.key) != Some(lock.token) ==> redis.server == old(redis.server)
    {
      StopLockRenewal(lock.key);
      released := redis.Send(Release(lock.key, lock.token), reply);
    }

    method ExtendLock(lock: Lock, ttl: Ttl, reply: Reply) returns (extended: bool)
      modifies redis
      ensures extended <==> reply.Answered? && Holder(old(redis.server), lock.key) == Some(lock.token)
      ensures redis.server == Sent(old(redis.server), Extend(lock.key, lock.token, ttl), reply)
    {
      extended := redis.Send(Extend(lock.key, lock.token, ttl), reply);
    }

    method StartLockRenewal(lock: Lock, ttl: Ttl)
      modifies this
      ensures activeLocks == old(activeLocks)[lock.key := Timer(lock.token, ttl, ttl / 2)]
    {
      activeLocks := activeLocks[lock.key := Timer(lock.token, ttl, ttl / 2)];
    }

    /** Stops whatever timer the key has, whichever token started it. */
    method StopLockRenewal(key: string)
      modifies this
      ensures activeLocks == old(activeLocks) - {key}
    {
      activeLocks := activeLocks - {key};
    }

    /** The timer's callback: one failed renewal ends the renewing. */
    method RenewalTick(key: string, reply: Reply)
      requires key in activeLocks
      modifies redis, this
      ensures var timer := old(activeLocks)[key];
        && redis.server == Sent(old(redis.server), Extend(key, timer.token, timer.ttl), reply)
        && activeLocks == if reply.Answered? && Holder(old(redis.server), key) == Some(timer.token)
                          then old(activeLocks) else old(activeLocks) - {key}
    {
      var timer := activeLocks[key];
      var extended := ExtendLock(Lock(key, timer.token), timer.ttl, reply);
      if !extended {
        StopLockRenewal(key);
      }
    }
  }
}
