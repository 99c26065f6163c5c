/** The per-IP rate limiter: token buckets in a map that forgets idle clients.

    Times are seconds and exact. A limiter is given by the interval in which it gains a token, and a
    bucket holds its tokens as credit: the seconds of refill they are worth, one interval each. A
    `*rate.Limiter` is an index into `limiters`, so that a request still holding the limiter of a
    forgotten client is told apart from one holding its successor. */
module RateLimit {
  const IDLE_LIMIT: real := 180.0

  datatype Config = Config(interval: real, burst: nat)

  datatype Bucket = Bucket(credit: real, last: real)

  datatype Client = Client(limiter: nat, lastSeen: real)

  /** A request between `getLimiter` and `Allow`. */
  datatype Request = Request(ip: string, limiter: nat, gotAt: real)

  datatype State = State(clients: map<string, Client>, limiters: seq<Bucket>, requests: seq<Request>)

  datatype Event =
    | GetLimiter(ip: string, at: real)
    | Allow(request: nat, at: real)
    | Cleanup(at: real)

  datatype Answer = Answer(ip: string, at: real, admitted: bool)

  // The token bucket.

  /** n intervals, that is n * x. */
  function Times(n: nat, x: real): real {
    if n == 0 then 0.0 else x + Times(n - 1, x)
  }

  lemma {:induction false} TimesIsProduct(n: nat, x: real)
    ensures Times(n, x) == n as real * x
  {
    if n > 0 {
      TimesIsProduct(n - 1, x);
      assert n as real * x == (n - 1) as real * x + x;
    }
  }

  lemma {:induction false} TimesNonNegative(n: nat, x: real)
    requires x >= 0.0
    ensures Times(n, x) >= if n == 0 then 0.0 else x
  {
    if n > 0 {
      TimesNonNegative(n - 1, x);
    }
  }

  /** The credit of a full bucket. */
  function Capacity(cfg: Config): real {
    Times(cfg.burst, cfg.interval)
  }

  function Fresh(cfg: Config): Bucket {
    Bucket(Capacity(cfg), 0.0)
  }

  /** The credit there is at time t. */
  function Level(cfg: Config, b: Bucket, t: real): real {
    var credit := b.credit + if t < b.last then 0.0 else t - b.last;
    if credit > Capacity(cfg) then Capacity(cfg) else credit
  }

  predicate Admits(cfg: Config, b: Bucket, t: real) {
    cfg.burst >= 1 && Level(cfg, b, t) >= cfg.interval
  }

  function Take(cfg: Config, b: Bucket, t: real): Bucket {
    if Admits(cfg, b, t) then Bucket(Level(cfg, b, t) - cfg.interval, t) else b
  }

  // The evicting map.

  function AfterGet(cfg: Config, s: State, ip: string, at: real): State {
    if ip in s.clients then
      var id := s.clients[ip].limiter;
      State(s.clients[ip := Client(id, at)], s.limiters, s.requests + [Request(ip, id, at)])
    else
      var id := |s.limiters|;
      State(s.clients[ip := Client(id, at)], s.limiters + [Fresh(cfg)], s.requests + [Request(ip, id, at)])
  }

  predicate Stale(c: Client, at: real) {
    at - c.lastSeen > IDLE_LIMIT
  }

  function AfterCleanup(clients: map<string, Client>, at: real): map<string, Client> {
    map ip | ip in clients && !Stale(clients[ip], at) :: clients[ip]
  }

  /** The event refers to an existing request and an existing limiter. */
  predicate Possible(s: State, e: Event) {
    e.Allow? ==> e.request < |s.requests| && s.requests[e.request].limiter < |s.limiters|
  }

  function Step(cfg: Config, s: State, e: Event): State
    requires Possible(s, e)
  {
    match e
    case GetLimiter(ip, at) => AfterGet(cfg, s, ip, at)
    case Allow(r, at) =>
      var id := s.requests[r].limiter;
      s.(limiters := s.limiters[id := Take(cfg, s.limiters[id], at)])
    case Cleanup(at) => s.(clients := AfterCleanup(s.clients, at))
  }

  function StepAnswers(cfg: Config, s: State, e: Event): seq<Answer>
    requires Possible(s, e)
  {
    if e.Allow? then
      var r := s.requests[e.request];
      [Answer(r.ip, e.at, Admits(cfg, s.limiters[r.limiter], e.at))]
    else []
  }

  /** The middleware of one route group. A mutex makes each of the first two methods atomic. */
  class RateLimitMiddleware {
    const cfg: Config
    var clients: map<string, Client>
    var limiters: seq<Bucket>
    ghost var requests: seq<Request>

    ghost function Snapshot(): State
      reads this
    {
      State(clients, limiters, requests)
    }

    ghost predicate Valid()
      reads this
    {
      forall ip :: ip in clients ==> clients[ip].limiter < |limiters|
    }

    constructor (cfg: Config)
      ensures Valid() && this.cfg == cfg && Snapshot() == START
    {
      this.cfg := cfg;
      clients, limiters, requests := map[], [], [];
    }

    method GetLimiter(ip: string, now: real) returns (limiter: nat)
      requires Valid()
      modifies this
      ensures Valid() && limiter < |limiters|
      ensures Snapshot() == AfterGet(cfg, old(Snapshot()), ip, now)
      ensures limiter == requests[|requests| - 1].limiter
      ensures ip in clients && clients[ip] == Client(limiter, now)
      ensures if ip in old(clients) then limiter == old(clients)[ip].limiter && limiters == old(limiters)
              else limiter == |old(limiters)| && limiters == old(limiters) + [Bucket(Capacity(cfg), 0.0)]
      ensures forall other :: other != ip ==> (other in clients <==> other in old(clients))
      ensures forall other :: other != ip && other in clients && other in old(clients) ==> clients[other] == old(clients)[other]
    {
      if ip in clients {
        limiter := clients[ip].limiter;
        clients := clients[ip := Client(limiter, now)];
      } else {
        limiter := |limiters|;
        limiters := limiters + [Fresh(cfg)];
        clients := clients[ip := Client(limiter, now)];
      }
      requests := requests + [Request(ip, limiter, now)];
    }

    method CleanupClients(now: real)
      requires Valid()
      modifies this
      ensures Valid()
      ensures Snapshot() == old(Snapshot()).(clients := AfterCleanup(old(clients), now))
      ensures forall ip :: ip in clients <==> ip in old(clients) && now - old(clients)[ip].lastSeen <= 180.0
      ensures forall ip :: ip in clients ==> clients[ip] == old(clients)[ip]
    {
      var todo := clients.Keys;
      while todo != {}
        invariant todo <= old(clients).Keys && todo <= clients.Keys <= old(clients).Keys
        invariant forall ip :: ip in clients ==> clients[ip] == old(clients)[ip]
        invariant forall ip :: ip in old(clients) && ip !in todo ==> (ip in clients <==> !Stale(old(clients)[ip], now))
        invariant limiters == old(limiters) && requests == old(requests)
        decreases |todo|
      {
        var ip :| ip in todo;
        todo := todo - {ip};
        if now - clients[ip].lastSeen > IDLE_LIMIT {
          clients := clients - {ip};
        }
      }
    }

    method Allow(limiter: nat, now: real) returns (ok: bool)
      requires Valid() && limiter < |limiters|
      modifies this`limiters
      ensures Valid()
      ensures ok == Admits(cfg, old(limiters)[limiter], now)
      ensures limiters == old(limiters)[limiter := Take(cfg, old(limiters)[limiter], now)]
      ensures var b := old(limiters)[limiter];
        var gained := b.credit + if b.last < now then now - b.last else 0.0;
        var level := if gained < Capacity(cfg) then gained else Capacity(cfg);
        && (ok <==> cfg.burst >= 1 && level >= cfg.interval)
        && limiters[limiter] == if ok then Bucket(level - cfg.interval, now) else b
    {
      var credit := Level(cfg, limiters[limiter], now) - cfg.interval;
      ok := 1 <= cfg.burst && credit >= 0.0;
      if ok {
        limiters := limiters[limiter := Bucket(credit, now)];
      }
    }

    /** The handler, when nothing else happens between its two steps. */
    method Handle(ip: string, isTest: bool, gotAt: real, askedAt: real) returns (next: bool)
      requires Valid()
      modifies this
      ensures Valid()
      ensures ip in {"", "127.0.0.1", "::1"} || isTest ==> next && Snapshot() == old(Snapshot())
      ensures ip !in {"", "127.0.0.1", "::1"} && !isTest ==>
        var s := AfterGet(cfg, old(Snapshot()), ip, gotAt);
        && Possible(s, Event.Allow(|old(requests)|, askedAt))
        && Snapshot() == Step(cfg, s, Event.Allow(|old(requests)|, askedAt))
        && StepAnswers(cfg, s, Event.Allow(|old(requests)|, askedAt)) == [Answer(ip, askedAt, next)]
    {
      if ip == "" || ip == "127.0.0.1" || ip == "::1" || isTest {
        return true;
      }
      var limiter := GetLimiter(ip, gotAt);
      next := Allow(limiter, askedAt);
    }
  }

  const START := State(map[], [], [])

  // Runs.

  /** A run from state s, in which every request asks within g seconds of getting its limiter. */
  ghost predicate Timely(cfg: Config, s: State, events: seq<Event>, now: real, g: real)
    decreases |events|
  {
    events != [] ==>
      var e := events[0];
      && now <= e.at && Possible(s, e)
      && (e.Allow? ==> e.at <= s.requests[e.request].gotAt + g)
      && Timely(cfg, Step(cfg, s, e), events[1..], e.at, g)
  }

  ghost function Answers(cfg: Config, s: State, events: seq<Event>, now: real, g: real): seq<Answer>
    requires Timely(cfg, s, events, now, g)
    decreases |events|
  {
    if events == [] then []
    else StepAnswers(cfg, s, events[0]) + Answers(cfg, Step(cfg, s, events[0]), events[1..], events[0].at, g)
  }

  // The map that never forgets: one bucket for each IP, from the start.

  function BucketOf(cfg: Config, buckets: map<string, Bucket>, ip: string): Bucket {
    if ip in buckets then buckets[ip] else Fresh(cfg)
  }

  /** The answers of a map that never evicts to the questions in `asked`. */
  function NeverEvicting(cfg: Config, buckets: map<string, Bucket>, asked: seq<Answer>): seq<Answer>
    decreases |asked|
  {
    if asked == [] then []
    else
      var a := asked[0];
      var b := BucketOf(cfg, buckets, a.ip);
      [a.(admitted := Admits(cfg, b, a.at))]
        + NeverEvicting(cfg, buckets[a.ip := Take(cfg, b, a.at)], asked[1..])
  }

  /** Every Timely run gets the answers of a map that never evicts. */
  ghost predicate EvictionInvisible(cfg: Config, g: real) {
    forall events, now: real :: Timely(cfg, START, events, now, g) ==>
      var answers := Answers(cfg, START, events, now, g);
      answers == NeverEvicting(cfg, map[], answers)
  }

  // The simulation.

  predicate Full(cfg: Config, b: Bucket, t: real) {
    Level(cfg, b, t) == Capacity(cfg)
  }

  /** The two buckets cannot be told apart from time t on. */
  predicate Agree(cfg: Config, b: Bucket, c: Bucket, t: real) {
    b == c || (Full(cfg, b, t) && Full(cfg, c, t))
  }

  ghost predicate ClientInv(cfg: Config, s: State, buckets: map<string, Bucket>, ip: string, now: real, g: real) {
    var b := BucketOf(cfg, buckets, ip);
    && 0.0 <= b.credit <= Capacity(cfg)
    && if ip !in s.clients then Full(cfg, b, now) else
       var c := s.clients[ip];
       && c.limiter < |s.limiters| && c.lastSeen <= now
       && 0.0 <= s.limiters[c.limiter].credit <= Capacity(cfg)
       && Agree(cfg, s.limiters[c.limiter], b, now)
       && (Full(cfg, b, now) || (b.last <= now && b.last <= c.lastSeen + g))
  }

  /** A request that may still ask holds its client's current limiter, and that client is not stale. */
  ghost predicate RequestInv(s: State, r: Request, now: real, g: real) {
    now <= r.gotAt + g ==>
      r.ip in s.clients && s.clients[r.ip].limiter == r.limiter && r.gotAt <= s.clients[r.ip].lastSeen
  }

  ghost predicate Sim(cfg: Config, s: State, buckets: map<string, Bucket>, now: real, g: real) {
    && (forall ip :: ClientInv(cfg, s, buckets, ip, now, g))
    && (forall ip, ip' :: ip in s.clients && ip' in s.clients && s.clients[ip].limiter == s.clients[ip'].limiter ==> ip == ip')
    && (forall r :: r in s.requests ==> RequestInv(s, r, now, g))
  }

  lemma FullStays(cfg: Config, b: Bucket, t: real, t': real)
    requires t <= t' && Full(cfg, b, t)
    ensures Full(cfg, b, t')
  {
  }

  /** After 180 - g idle seconds the bucket is full again. */
  lemma IdleIsFull(cfg: Config, b: Bucket, t: real, g: real)
    requires Capacity(cfg) <= IDLE_LIMIT - g
    requires 0.0 <= b.credit && b.last <= t && t - b.last >= IDLE_LIMIT - g
    ensures Full(cfg, b, t)
  {
  }

  lemma ClientInvLater(cfg: Config, s: State, buckets: map<string, Bucket>, ip: string, now: real, later: real, g: real)
    requires cfg.interval > 0.0 && now <= later && ClientInv(cfg, s, buckets, ip, now, g)
    ensures ClientInv(cfg, s, buckets, ip, later, g)
  {
    var b := BucketOf(cfg, buckets, ip);
    if Full(cfg, b, now) {
      FullStays(cfg, b, now, later);
    }
    if ip in s.clients && Full(cfg, s.limiters[s.clients[ip].limiter], now) {
      FullStays(cfg, s.limiters[s.clients[ip].limiter], now, later);
    }
  }

  lemma SimLater(cfg: Config, s: State, buckets: map<string, Bucket>, now: real, later: real, g: real)
    requires cfg.interval > 0.0 && now <= later && Sim(cfg, s, buckets, now, g)
    ensures Sim(cfg, s, buckets, later, g)
  {
    forall ip {
      ClientInvLater(cfg, s, buckets, ip, now, later, g);
    }
    forall r | r in s.requests
      ensures RequestInv(s, r, later, g)
    {
      assert RequestInv(s, r, now, g);
    }
  }

  lemma GetKeepsSim(cfg: Config, s: State, buckets: map<string, Bucket>, ip: string, at: real, g: real)
    requires cfg.interval > 0.0 && g >= 0.0 && Sim(cfg, s, buckets, at, g)
    ensures Sim(cfg, AfterGet(cfg, s, ip, at), buckets, at, g)
  {
    var s' := AfterGet(cfg, s, ip, at);
    assert ClientInv(cfg, s, buckets, ip, at, g);
    forall other
      ensures ClientInv(cfg, s', buckets, other, at, g)
    {
      assert ClientInv(cfg, s, buckets, other, at, g);
    }
    forall a, b | a in s'.clients && b in s'.clients && s'.clients[a].limiter == s'.clients[b].limiter
      ensures a == b
    {
      assert ClientInv(cfg, s, buckets, a, at, g) && ClientInv(cfg, s, buckets, b, at, g);
    }
    forall r | r in s'.requests
      ensures RequestInv(s', r, at, g)
    {
      assert r in s.requests ==> RequestInv(s, r, at, g);
    }
  }

  lemma CleanupKeepsSim(cfg: Config, s: State, buckets: map<string, Bucket>, at: real, g: real)
    requires cfg.interval > 0.0 && 0.0 <= g <= IDLE_LIMIT && Capacity(cfg) <= IDLE_LIMIT - g
    requires Sim(cfg, s, buckets, at, g)
    ensures Sim(cfg, s.(clients := AfterCleanup(s.clients, at)), buckets, at, g)
  {
    var s' := s.(clients := AfterCleanup(s.clients, at));
    forall ip
      ensures ClientInv(cfg, s', buckets, ip, at, g)
    {
      assert ClientInv(cfg, s, buckets, ip, at, g);
      var b := BucketOf(cfg, buckets, ip);
      if ip in s.clients && ip !in s'.clients && !Full(cfg, b, at) {
        IdleIsFull(cfg, b, at, g);
      }
    }
    forall r | r in s'.requests
      ensures RequestInv(s', r, at, g)
    {
      assert RequestInv(s, r, at, g);
    }
  }

  lemma AllowKeepsSim(cfg: Config, s: State, buckets: map<string, Bucket>, r: nat, at: real, g: real)
    requires cfg.interval > 0.0 && g >= 0.0 && Sim(cfg, s, buckets, at, g)
    requires Possible(s, Allow(r, at)) && at <= s.requests[r].gotAt + g
    ensures var ip := s.requests[r].ip; var b := BucketOf(cfg, buckets, ip);
      && StepAnswers(cfg, s, Allow(r, at)) == [Answer(ip, at, Admits(cfg, b, at))]
      && Sim(cfg, Step(cfg, s, Allow(r, at)), buckets[ip := Take(cfg, b, at)], at, g)
  {
    var q := s.requests[r];
    var s', buckets' := Step(cfg, s, Allow(r, at)), buckets[q.ip := Take(cfg, BucketOf(cfg, buckets, q.ip), at)];
    assert q in s.requests && RequestInv(s, q, at, g);
    assert ClientInv(cfg, s, buckets, q.ip, at, g);
    forall ip
      ensures ClientInv(cfg, s', buckets', ip, at, g)
    {
      assert ClientInv(cfg, s, buckets, ip, at, g);
    }
    forall x | x in s'.requests
      ensures RequestInv(s', x, at, g)
    {
      assert RequestInv(s, x, at, g);
    }
  }

  lemma {:induction false} SimulatedRun(cfg: Config, s: State, buckets: map<string, Bucket>, events: seq<Event>, now: real, g: real)
    requires cfg.interval > 0.0 && 0.0 <= g <= IDLE_LIMIT && Capacity(cfg) <= IDLE_LIMIT - g
    requires Timely(cfg, s, events, now, g) && Sim(cfg, s, buckets, now, g)
    ensures var answers := Answers(cfg, s, events, now, g); answers == NeverEvicting(cfg, buckets, answers)
    decreases |events|
  {
    if events != [] {
      var e := events[0];
      SimLater(cfg, s, buckets, now, e.at, g);
      var s', rest := Step(cfg, s, e), events[1..];
      var later := Answers(cfg, s', rest, e.at, g);
      match e
      case GetLimiter(ip, at) =>
        GetKeepsSim(cfg, s, buckets, ip, at, g);
        SimulatedRun(cfg, s', buckets, rest, at, g);
        assert [] + later == later;
      case Cleanup(at) =>
        CleanupKeepsSim(cfg, s, buckets, at, g);
        SimulatedRun(cfg, s', buckets, rest, at, g);
        assert [] + later == later;
      case Allow(r, at) =>
        AllowKeepsSim(cfg, s, buckets, r, at, g);
        var ip := s.requests[r].ip;
        SimulatedRun(cfg, s', buckets[ip := Take(cfg, BucketOf(cfg, buckets, ip), at)], rest, at, g);
        assert (StepAnswers(cfg, s, e) + later)[1..] == later;
    }
  }

  /** With no tokens to give, nobody is ever admitted. */
  lemma {:induction false} NoBurstNoAnswer(cfg: Config, s: State, buckets: map<string, Bucket>, events: seq<Event>, now: real, g: real)
    requires cfg.burst == 0 && Timely(cfg, s, events, now, g)
    ensures var answers := Answers(cfg, s, events, now, g); answers == NeverEvicting(cfg, buckets, answers)
    decreases |events|
  {
    if events != [] {
      var e, s' := events[0], Step(cfg, s, events[0]);
      var later := Answers(cfg, s', events[1..], e.at, g);
      var all := Answers(cfg, s, events, now, g);
      if e.Allow? {
        var a := all[0];
        NoBurstNoAnswer(cfg, s', buckets[a.ip := BucketOf(cfg, buckets, a.ip)], events[1..], e.at, g);
        assert all[1..] == later;
      } else {
        NoBurstNoAnswer(cfg, s', buckets, events[1..], e.at, g);
        assert all == later;
      }
    }
  }

  lemma StartIsSimulated(cfg: Config, now: real, g: real)
    requires cfg.interval > 0.0
    ensures Sim(cfg, START, map[], now, g)
  {
    TimesNonNegative(cfg.burst, cfg.interval);
  }

  // The same map without its cleanups.

  function WithoutCleanups(events: seq<Event>): seq<Event> {
    if events == [] then []
    else (if events[0].Cleanup? then [] else [events[0]]) + WithoutCleanups(events[1..])
  }

  /** The requests are the same, and each holds an existing limiter. */
  ghost predicate SameRequests(s: State, s': State) {
    && |s.requests| == |s'.requests|
    && forall r :: 0 <= r < |s.requests| ==>
         && s.requests[r].ip == s'.requests[r].ip && s.requests[r].gotAt == s'.requests[r].gotAt
         && s'.requests[r].limiter < |s'.limiters|
  }

  lemma SameRequestsAfterGet(cfg: Config, s: State, s': State, buckets: map<string, Bucket>, ip: string, at: real, g: real)
    requires SameRequests(s, s') && Sim(cfg, s', buckets, at, g)
    ensures SameRequests(AfterGet(cfg, s, ip, at), AfterGet(cfg, s', ip, at))
  {
    assert ClientInv(cfg, s', buckets, ip, at, g);
  }

  lemma TimelyEarlier(cfg: Config, s: State, events: seq<Event>, now: real, later: real, g: real)
    requires now <= later && Timely(cfg, s, events, later, g)
    ensures Timely(cfg, s, events, now, g) && Answers(cfg, s, events, now, g) == Answers(cfg, s, events, later, g)
  {
  }

  lemma FirstEvent(cfg: Config, s: State, e: Event, rest: seq<Event>, now: real, g: real)
    requires now <= e.at && Possible(s, e) && (e.Allow? ==> e.at <= s.requests[e.request].gotAt + g)
    requires Timely(cfg, Step(cfg, s, e), rest, e.at, g)
    ensures Timely(cfg, s, [e] + rest, now, g)
    ensures Answers(cfg, s, [e] + rest, now, g) == StepAnswers(cfg, s, e) + Answers(cfg, Step(cfg, s, e), rest, e.at, g)
  {
    assert ([e] + rest)[1..] == rest;
  }

  /** Without its cleanups a run gets the answers of a map that never evicts, whatever the bucket. */
  lemma {:induction false} CleanupsRemoved(cfg: Config, s: State, s': State, buckets: map<string, Bucket>, events: seq<Event>, now: real, g: real)
    requires cfg.interval > 0.0 && g >= 0.0 && Timely(cfg, s, events, now, g)
    requires SameRequests(s, s') && Sim(cfg, s', buckets, now, g)
    ensures Timely(cfg, s', WithoutCleanups(events), now, g)
    ensures Answers(cfg, s', WithoutCleanups(events), now, g) == NeverEvicting(cfg, buckets, Answers(cfg, s, events, now, g))
    decreases |events|
  {
    if events == [] {
      assert Answers(cfg, s', WithoutCleanups(events), now, g) == [] == Answers(cfg, s, events, now, g);
    } else {
      var e, rest := events[0], events[1..];
      var later := Answers(cfg, Step(cfg, s, e), rest, e.at, g);
      SimLater(cfg, s', buckets, now, e.at, g);
      match e
      case GetLimiter(ip, at) =>
        GetKeepsSim(cfg, s', buckets, ip, at, g);
        SameRequestsAfterGet(cfg, s, s', buckets, ip, at, g);
        CleanupsRemoved(cfg, Step(cfg, s, e), Step(cfg, s', e), buckets, rest, at, g);
        FirstEvent(cfg, s', e, WithoutCleanups(rest), now, g);
        assert Answers(cfg, s, events, now, g) == later;
        assert [] + Answers(cfg, Step(cfg, s', e), WithoutCleanups(rest), at, g) == Answers(cfg, s', WithoutCleanups(events), now, g);
      case Cleanup(at) =>
        CleanupsRemoved(cfg, Step(cfg, s, e), s', buckets, rest, at, g);
        TimelyEarlier(cfg, s', WithoutCleanups(rest), now, at, g);
        assert WithoutCleanups(events) == WithoutCleanups(rest) && Answers(cfg, s, events, now, g) == later;
      case Allow(r, at) =>
        AllowKeepsSim(cfg, s', buckets, r, at, g);
        var ip := s'.requests[r].ip;
        CleanupsRemoved(cfg, Step(cfg, s, e), Step(cfg, s', e), buckets[ip := Take(cfg, BucketOf(cfg, buckets, ip), at)], rest, at, g);
        FirstEvent(cfg, s', e, WithoutCleanups(rest), now, g);
        var all := Answers(cfg, s, events, now, g);
        assert all == StepAnswers(cfg, s, e) + later && all[1..] == later;
        assert all[0].ip == ip && all[0].at == at;
        assert Answers(cfg, s', WithoutCleanups(events), now, g) == NeverEvicting(cfg, buckets, all);
    }
  }

  lemma RunWithoutCleanups(cfg: Config, events: seq<Event>, now: real, g: real)
    requires cfg.interval > 0.0 && g >= 0.0 && Timely(cfg, START, events, now, g)
    ensures Timely(cfg, START, WithoutCleanups(events), now, g)
    ensures Answers(cfg, START, WithoutCleanups(events), now, g)
         == NeverEvicting(cfg, map[], Answers(cfg, START, events, now, g))
  {
    StartIsSimulated(cfg, now, g);
    CleanupsRemoved(cfg, START, START, map[], events, now, g);
  }

  /** Removing the cleanups from a run changes none of its answers. */
  ghost predicate CleanupsInvisible(cfg: Config, g: real) {
    forall events, now: real :: Timely(cfg, START, events, now, g) ==>
      && Timely(cfg, START, WithoutCleanups(events), now, g)
      && Answers(cfg, START, events, now, g) == Answers(cfg, START, WithoutCleanups(events), now, g)
  }

  /** Comparing with the map that never evicts is comparing with the same run without its cleanups. */
  lemma EvictionInvisibleMeans(cfg: Config, g: real)
    requires cfg.interval > 0.0 && g >= 0.0
    ensures EvictionInvisible(cfg, g) <==> CleanupsInvisible(cfg, g)
  {
    if EvictionInvisible(cfg, g) {
      forall events, now: real | Timely(cfg, START, events, now, g)
        ensures Timely(cfg, START, WithoutCleanups(events), now, g)
        ensures Answers(cfg, START, events, now, g) == Answers(cfg, START, WithoutCleanups(events), now, g)
      {
        RunWithoutCleanups(cfg, events, now, g);
      }
    }
    if CleanupsInvisible(cfg, g) {
      forall events, now: real | Timely(cfg, START, events, now, g)
        ensures Answers(cfg, START, events, now, g) == NeverEvicting(cfg, map[], Answers(cfg, START, events, now, g))
      {
        RunWithoutCleanups(cfg, events, now, g);
      }
    }
  }

  // One IP among many.

  function OfIp(answers: seq<Answer>, ip: string): seq<Answer> {
    if answers == [] then []
    else (if answers[0].ip == ip then [answers[0]] else []) + OfIp(answers[1..], ip)
  }

  /** The answers one bucket gives to the questions in `asked`. */
  function Alone(cfg: Config, b: Bucket, asked: seq<Answer>): seq<Answer>
    decreases |asked|
  {
    if asked == [] then []
    else [asked[0].(admitted := Admits(cfg, b, asked[0].at))] + Alone(cfg, Take(cfg, b, asked[0].at), asked[1..])
  }

  lemma {:induction false} BucketsAreSeparate(cfg: Config, buckets: map<string, Bucket>, asked: seq<Answer>, ip: string)
    ensures OfIp(NeverEvicting(cfg, buckets, asked), ip) == Alone(cfg, BucketOf(cfg, buckets, ip), OfIp(asked, ip))
    decreases |asked|
  {
    if asked != [] {
      var a := asked[0];
      var b := BucketOf(cfg, buckets, a.ip);
      var buckets' := buckets[a.ip := Take(cfg, b, a.at)];
      BucketsAreSeparate(cfg, buckets', asked[1..], ip);
      var first, later := a.(admitted := Admits(cfg, b, a.at)), NeverEvicting(cfg, buckets', asked[1..]);
      assert NeverEvicting(cfg, buckets, asked) == [first] + later && ([first] + later)[1..] == later;
      if a.ip == ip {
        assert OfIp(asked, ip)[1..] == OfIp(asked[1..], ip);
      } else {
        assert OfIp(asked, ip) == OfIp(asked[1..], ip) && OfIp([first] + later, ip) == OfIp(later, ip);
      }
    }
  }

  /** Whatever the other clients and the cleanups do, an IP gets the answers of one bucket of its own. */
  lemma AnswersAreThoseOfOneBucket(cfg: Config, events: seq<Event>, now: real, g: real, ip: string)
    requires EvictionInvisible(cfg, g) && Timely(cfg, START, events, now, g)
    ensures var mine := OfIp(Answers(cfg, START, events, now, g), ip);
      mine == Alone(cfg, Fresh(cfg), mine)
  {
    BucketsAreSeparate(cfg, map[], Answers(cfg, START, events, now, g), ip);
  }

  // The window bound.

  ghost predicate Ordered(answers: seq<Answer>, from: real) {
    answers != [] ==> from <= answers[0].at && Ordered(answers[1..], answers[0].at)
  }

  lemma {:induction false} AnswersAreOrdered(cfg: Config, s: State, events: seq<Event>, now: real, from: real, g: real)
    requires Timely(cfg, s, events, now, g) && from <= now
    ensures Ordered(Answers(cfg, s, events, now, g), from)
    decreases |events|
  {
    if events != [] {
      var e, s' := events[0], Step(cfg, s, events[0]);
      var later := Answers(cfg, s', events[1..], e.at, g);
      if e.Allow? {
        AnswersAreOrdered(cfg, s', events[1..], e.at, e.at, g);
        assert (StepAnswers(cfg, s, e) + later)[1..] == later;
      } else {
        AnswersAreOrdered(cfg, s', events[1..], e.at, from, g);
        assert [] + later == later;
      }
    }
  }

  lemma {:induction false} OfIpIsOrdered(answers: seq<Answer>, ip: string, from: real, from': real)
    requires Ordered(answers, from) && from' <= from
    ensures Ordered(OfIp(answers, ip), from')
    decreases |answers|
  {
    if answers != [] {
      var later := OfIp(answers[1..], ip);
      if answers[0].ip == ip {
        OfIpIsOrdered(answers[1..], ip, answers[0].at, answers[0].at);
        assert ([answers[0]] + later)[1..] == later;
      } else {
        OfIpIsOrdered(answers[1..], ip, answers[0].at, from');
        assert [] + later == later;
      }
    }
  }

  /** How many requests are admitted between lo and hi, both included. */
  function Admitted(answers: seq<Answer>, lo: real, hi: real): nat {
    if answers == [] then 0
    else (if answers[0].admitted && lo <= answers[0].at <= hi then 1 else 0) + Admitted(answers[1..], lo, hi)
  }

  /** What admissions between lo and hi cost in credit. */
  ghost function Spent(cfg: Config, answers: seq<Answer>, lo: real, hi: real): real {
    Times(Admitted(answers, lo, hi), cfg.interval)
  }

  /** What can be spent from time `from` to hi: the level at `from` and the time since. */
  function Budget(cfg: Config, b: Bucket, from: real, hi: real): real {
    if hi < from then 0.0 else Level(cfg, b, from) + (hi - from)
  }

  lemma BudgetPays(cfg: Config, b: Bucket, from: real, t: real, hi: real)
    requires cfg.interval > 0.0 && from <= t <= hi
    ensures Budget(cfg, Take(cfg, b, t), t, hi) + (if Admits(cfg, b, t) then cfg.interval else 0.0) <= Budget(cfg, b, from, hi)
  {
  }

  lemma SpentFirst(cfg: Config, b: Bucket, asked: seq<Answer>, lo: real, hi: real)
    requires asked != []
    ensures var t := asked[0].at; var later := Spent(cfg, Alone(cfg, Take(cfg, b, t), asked[1..]), lo, hi);
      Spent(cfg, Alone(cfg, b, asked), lo, hi) == later + if Admits(cfg, b, t) && lo <= t <= hi then cfg.interval else 0.0
  {
    var t := asked[0].at;
    assert Alone(cfg, b, asked)[1..] == Alone(cfg, Take(cfg, b, t), asked[1..]);
  }

  /** From time `from` on, admissions are paid for by the credit at `from` and the time since. */
  lemma {:induction false} AdmissionsArePaidFor(cfg: Config, b: Bucket, asked: seq<Answer>, from: real, lo: real, hi: real)
    requires cfg.interval > 0.0 && b.credit >= 0.0 && Ordered(asked, from)
    ensures Spent(cfg, Alone(cfg, b, asked), lo, hi) <= Budget(cfg, b, from, hi)
    decreases |asked|
  {
    TimesNonNegative(cfg.burst, cfg.interval);
    if asked != [] {
      var t := asked[0].at;
      SpentFirst(cfg, b, asked, lo, hi);
      AdmissionsArePaidFor(cfg, Take(cfg, b, t), asked[1..], t, lo, hi);
      if t <= hi {
        BudgetPays(cfg, b, from, t, hi);
      }
    }
  }

  lemma {:induction false} OneBucketWindow(cfg: Config, b: Bucket, asked: seq<Answer>, from: real, lo: real, hi: real)
    requires cfg.interval > 0.0 && b.credit >= 0.0 && Ordered(asked, from) && lo <= hi
    ensures Spent(cfg, Alone(cfg, b, asked), lo, hi) <= Capacity(cfg) + (hi - lo)
    decreases |asked|
  {
    TimesNonNegative(cfg.burst, cfg.interval);
    if asked != [] {
      var t := asked[0].at;
      if t < lo {
        SpentFirst(cfg, b, asked, lo, hi);
        OneBucketWindow(cfg, Take(cfg, b, t), asked[1..], t, lo, hi);
      } else {
        AdmissionsArePaidFor(cfg, b, asked, t, lo, hi);
      }
    }
  }

  lemma SpentBound(cfg: Config, events: seq<Event>, now: real, g: real, ip: string, lo: real, hi: real)
    requires cfg.interval > 0.0 && EvictionInvisible(cfg, g) && Timely(cfg, START, events, now, g) && lo <= hi
    ensures Spent(cfg, OfIp(Answers(cfg, START, events, now, g), ip), lo, hi) <= Capacity(cfg) + (hi - lo)
  {
    var answers := Answers(cfg, START, events, now, g);
    AnswersAreThoseOfOneBucket(cfg, events, now, g, ip);
    AnswersAreOrdered(cfg, START, events, now, now, g);
    OfIpIsOrdered(answers, ip, now, now);
    TimesNonNegative(cfg.burst, cfg.interval);
    OneBucketWindow(cfg, Fresh(cfg), OfIp(answers, ip), now, lo, hi);
  }

  lemma SpentInProducts(cfg: Config, admitted: nat, length: real)
    requires Times(admitted, cfg.interval) <= Capacity(cfg) + length
    ensures admitted as real * cfg.interval <= cfg.burst as real * cfg.interval + length
  {
    TimesIsProduct(admitted, cfg.interval);
    TimesIsProduct(cfg.burst, cfg.interval);
  }

  /** In any closed time window the requests admitted for one IP number at most the burst and one for
      each interval of the window: admitted * interval <= burst * interval + length. */
  lemma WindowBound(cfg: Config, events: seq<Event>, now: real, g: real, ip: string, lo: real, hi: real)
    requires cfg.interval > 0.0 && EvictionInvisible(cfg, g) && Timely(cfg, START, events, now, g) && lo <= hi
    ensures var admitted := Admitted(OfIp(Answers(cfg, START, events, now, g), ip), lo, hi);
      admitted as real * cfg.interval <= cfg.burst as real * cfg.interval + (hi - lo)
  {
    SpentBound(cfg, events, now, g, ip, lo, hi);
    SpentInProducts(cfg, Admitted(OfIp(Answers(cfg, START, events, now, g), ip), lo, hi), hi - lo);
  }

  // Exactly when a request is refused.

  /** The bucket b after the first k of the questions in `asked`. */
  ghost function BucketAfter(cfg: Config, b: Bucket, asked: seq<Answer>, k: nat): Bucket
    requires k <= |asked|
  {
    if k == 0 then b else Take(cfg, BucketAfter(cfg, b, asked, k - 1), asked[k - 1].at)
  }

  lemma {:induction false} BucketAfterFirst(cfg: Config, b: Bucket, asked: seq<Answer>, k: nat)
    requires 0 < k <= |asked|
    ensures BucketAfter(cfg, b, asked, k) == BucketAfter(cfg, Take(cfg, b, asked[0].at), asked[1..], k - 1)
  {
    if k > 1 {
      BucketAfterFirst(cfg, b, asked, k - 1);
    }
  }

  lemma {:induction false} AloneAt(cfg: Config, b: Bucket, asked: seq<Answer>, k: nat)
    requires k < |asked|
    ensures |Alone(cfg, b, asked)| == |asked|
    ensures Alone(cfg, b, asked)[k] == asked[k].(admitted := Admits(cfg, BucketAfter(cfg, b, asked, k), asked[k].at))
    decreases |asked|
  {
    var later := Take(cfg, b, asked[0].at);
    if k > 0 {
      AloneAt(cfg, later, asked[1..], k - 1);
      BucketAfterFirst(cfg, b, asked, k);
    } else if |asked| > 1 {
      AloneAt(cfg, later, asked[1..], 0);
    }
  }

  lemma {:induction false} AlonePrefix(cfg: Config, b: Bucket, asked: seq<Answer>, k: nat)
    requires k <= |asked| && asked == Alone(cfg, b, asked)
    ensures asked[..k] == Alone(cfg, b, asked[..k])
  {
    forall j | 0 <= j < k
      ensures |Alone(cfg, b, asked[..k])| == k && asked[..k][j] == Alone(cfg, b, asked[..k])[j]
    {
      AloneAt(cfg, b, asked, j);
      AloneAt(cfg, b, asked[..k], j);
      SameBucketAfter(cfg, b, asked, k, j);
    }
  }

  lemma {:induction false} SameBucketAfter(cfg: Config, b: Bucket, asked: seq<Answer>, k: nat, j: nat)
    requires j <= k <= |asked|
    ensures BucketAfter(cfg, b, asked[..k], j) == BucketAfter(cfg, b, asked, j)
  {
    if j > 0 {
      SameBucketAfter(cfg, b, asked, k, j - 1);
    }
  }

  lemma {:induction false} AdmittedNext(answers: seq<Answer>, k: nat, lo: real, hi: real)
    requires k < |answers|
    ensures Admitted(answers[..k + 1], lo, hi)
         == Admitted(answers[..k], lo, hi) + if answers[k].admitted && lo <= answers[k].at <= hi then 1 else 0
    decreases k
  {
    if k == 0 {
      assert answers[..1] == [answers[0]] && answers[..0] == [];
      assert Admitted([answers[0]][1..], lo, hi) == 0;
    } else {
      AdmittedNext(answers[1..], k - 1, lo, hi);
      assert answers[..k + 1][1..] == answers[1..][..k] && answers[..k][1..] == answers[1..][..k - 1];
    }
  }

  lemma {:induction false} OrderedAt(answers: seq<Answer>, from: real, i: nat, k: nat)
    requires Ordered(answers, from) && i <= k < |answers|
    ensures from <= answers[i].at <= answers[k].at
    decreases |answers|
  {
    if i > 0 {
      OrderedAt(answers[1..], answers[0].at, i - 1, k - 1);
    } else if k > 0 {
      OrderedAt(answers[1..], answers[0].at, 0, k - 1);
    }
  }

  /** No admission before index k is later than t. */
  ghost predicate AllBy(answers: seq<Answer>, k: nat, t: real)
    requires k <= |answers|
  {
    forall i :: 0 <= i < k && answers[i].admitted ==> answers[i].at <= t
  }

  lemma {:induction false} NoneAdmittedLater(answers: seq<Answer>, k: nat, lo: real, t: real, hi: real)
    requires k <= |answers| && AllBy(answers, k, t) && t <= hi
    ensures Admitted(answers[..k], lo, hi) == Admitted(answers[..k], lo, t)
    ensures lo > t ==> Admitted(answers[..k], lo, hi) == 0
  {
    if k > 0 {
      NoneAdmittedLater(answers, k - 1, lo, t, hi);
      AdmittedNext(answers, k - 1, lo, hi);
      AdmittedNext(answers, k - 1, lo, t);
    }
  }

  /** The bucket has last been full at time `full`; since then it has lost what was admitted and gained the time. */
  ghost predicate FullAt(cfg: Config, b: Bucket, answers: seq<Answer>, k: nat, full: real)
    requires k <= |answers|
  {
    && full <= b.last && AllBy(answers, k, b.last)
    && b.credit + Times(Admitted(answers[..k], full, b.last), cfg.interval) == Capacity(cfg) + (b.last - full)
  }

  /** Nothing has been admitted yet. */
  ghost predicate Untouched(cfg: Config, b: Bucket, answers: seq<Answer>, k: nat)
    requires k <= |answers|
  {
    b == Fresh(cfg) && forall i :: 0 <= i < k ==> !answers[i].admitted
  }

  lemma {:induction false} NoneAdmitted(answers: seq<Answer>, k: nat, lo: real, hi: real)
    requires k <= |answers| && forall i :: 0 <= i < k ==> !answers[i].admitted
    ensures Admitted(answers[..k], lo, hi) == 0
  {
    if k > 0 {
      NoneAdmitted(answers, k - 1, lo, hi);
      AdmittedNext(answers, k - 1, lo, hi);
    }
  }

  /** An admission by a full bucket. */
  lemma TakeFromFull(cfg: Config, b: Bucket, answers: seq<Answer>, k: nat)
    requires cfg.interval > 0.0 && k < |answers| && answers[k].admitted && Admits(cfg, b, answers[k].at)
    requires Level(cfg, b, answers[k].at) == Capacity(cfg)
    requires Admitted(answers[..k], answers[k].at, answers[k].at) == 0
    requires AllBy(answers, k, answers[k].at)
    ensures FullAt(cfg, Take(cfg, b, answers[k].at), answers, k + 1, answers[k].at)
  {
    AdmittedNext(answers, k, answers[k].at, answers[k].at);
    assert Times(1, cfg.interval) == cfg.interval;
  }

  /** An admission by a bucket that is not full. */
  lemma TakeFromRest(cfg: Config, b: Bucket, answers: seq<Answer>, k: nat, full: real)
    requires cfg.interval > 0.0 && k < |answers| && answers[k].admitted && Admits(cfg, b, answers[k].at)
    requires FullAt(cfg, b, answers, k, full) && b.last <= answers[k].at && Level(cfg, b, answers[k].at) < Capacity(cfg)
    ensures FullAt(cfg, Take(cfg, b, answers[k].at), answers, k + 1, full)
  {
    var t := answers[k].at;
    AdmittedNext(answers, k, full, t);
    NoneAdmittedLater(answers, k, full, b.last, t);
    assert Times(Admitted(answers[..k], full, t) + 1, cfg.interval) == cfg.interval + Times(Admitted(answers[..k], full, t), cfg.interval);
  }

  ghost predicate Accounted(cfg: Config, b: Bucket, answers: seq<Answer>, k: nat)
    requires k <= |answers|
  {
    Untouched(cfg, b, answers, k) || exists full: real :: FullAt(cfg, b, answers, k, full)
  }

  lemma AccountedNext(cfg: Config, b: Bucket, answers: seq<Answer>, k: nat, from: real)
    requires cfg.interval > 0.0 && k < |answers| && Ordered(answers, from)
    requires Accounted(cfg, b, answers, k) && answers[k].admitted == Admits(cfg, b, answers[k].at)
    requires !Untouched(cfg, b, answers, k) ==> b.last <= answers[k].at && b.credit < Capacity(cfg)
    ensures Accounted(cfg, Take(cfg, b, answers[k].at), answers, k + 1)
  {
    var t := answers[k].at;
    if !answers[k].admitted {
      if !Untouched(cfg, b, answers, k) {
        var full :| FullAt(cfg, b, answers, k, full);
        AdmittedNext(answers, k, full, b.last);
        assert FullAt(cfg, b, answers, k + 1, full);
      }
    } else if Untouched(cfg, b, answers, k) {
      NoneAdmitted(answers, k, t, t);
      TakeFromFull(cfg, b, answers, k);
    } else {
      var full :| FullAt(cfg, b, answers, k, full);
      if Level(cfg, b, t) < Capacity(cfg) {
        TakeFromRest(cfg, b, answers, k, full);
      } else {
        NoneAdmittedLater(answers, k, t, b.last, t);
        TakeFromFull(cfg, b, answers, k);
      }
    }
  }

  /** After k answers of one bucket, its state is accounted for and its last admission is one of them. */
  lemma {:induction false} AlwaysAccounted(cfg: Config, answers: seq<Answer>, k: nat, from: real)
    requires cfg.interval > 0.0 && k <= |answers| && Ordered(answers, from) && answers == Alone(cfg, Fresh(cfg), answers)
    ensures var b := BucketAfter(cfg, Fresh(cfg), answers, k);
      && Accounted(cfg, b, answers, k)
      && (!Untouched(cfg, b, answers, k) ==>
            b.credit < Capacity(cfg) && exists i :: 0 <= i < k && b.last == answers[i].at)
  {
    if k > 0 {
      AlwaysAccounted(cfg, answers, k - 1, from);
      AloneAt(cfg, Fresh(cfg), answers, k - 1);
      var b := BucketAfter(cfg, Fresh(cfg), answers, k - 1);
      if !Untouched(cfg, b, answers, k - 1) {
        var i :| 0 <= i < k - 1 && b.last == answers[i].at;
        OrderedAt(answers, from, i, k - 1);
      }
      AccountedNext(cfg, b, answers, k - 1, from);
    }
  }

  /** With the request at t, more would have been admitted since lo than a full bucket and the time since allow. */
  predicate Overdrawn(cfg: Config, earlier: seq<Answer>, lo: real, t: real) {
    && lo <= t
    && (Admitted(earlier, lo, t) + 1) as real * cfg.interval > cfg.burst as real * cfg.interval + (t - lo)
  }

  lemma OverdrawnInTimes(cfg: Config, earlier: seq<Answer>, lo: real, t: real)
    ensures Overdrawn(cfg, earlier, lo, t) <==>
      lo <= t && Times(Admitted(earlier, lo, t), cfg.interval) + cfg.interval > Capacity(cfg) + (t - lo)
  {
    TimesIsProduct(Admitted(earlier, lo, t) + 1, cfg.interval);
    TimesIsProduct(cfg.burst, cfg.interval);
  }

  lemma RefusedIsOverdrawn(cfg: Config, answers: seq<Answer>, m: nat, from: real) returns (lo: real)
    requires cfg.interval > 0.0 && m < |answers| && Ordered(answers, from) && answers == Alone(cfg, Fresh(cfg), answers)
    requires !answers[m].admitted
    ensures Overdrawn(cfg, answers[..m], lo, answers[m].at)
  {
    var t, b := answers[m].at, BucketAfter(cfg, Fresh(cfg), answers, m);
    AloneAt(cfg, Fresh(cfg), answers, m);
    AlwaysAccounted(cfg, answers, m, from);
    TimesNonNegative(cfg.burst, cfg.interval);
    if cfg.burst == 0 {
      lo := t;
      TimesNonNegative(Admitted(answers[..m], lo, t), cfg.interval);
    } else {
      assert !Untouched(cfg, b, answers, m);
      var i :| 0 <= i < m && b.last == answers[i].at;
      OrderedAt(answers, from, i, m);
      lo :| FullAt(cfg, b, answers, m, lo);
      NoneAdmittedLater(answers, m, lo, b.last, t);
    }
    OverdrawnInTimes(cfg, answers[..m], lo, t);
  }

  lemma AdmittedIsNotOverdrawn(cfg: Config, answers: seq<Answer>, m: nat, from: real, lo: real)
    requires cfg.interval > 0.0 && m < |answers| && Ordered(answers, from) && answers == Alone(cfg, Fresh(cfg), answers)
    requires answers[m].admitted
    ensures !Overdrawn(cfg, answers[..m], lo, answers[m].at)
  {
    var t := answers[m].at;
    if lo <= t {
      AlonePrefix(cfg, Fresh(cfg), answers, m + 1);
      OrderedPrefix(answers, from, m + 1);
      TimesNonNegative(cfg.burst, cfg.interval);
      OneBucketWindow(cfg, Fresh(cfg), answers[..m + 1], from, lo, t);
      AdmittedNext(answers, m, lo, t);
      OverdrawnInTimes(cfg, answers[..m], lo, t);
    }
  }

  lemma {:induction false} OrderedPrefix(answers: seq<Answer>, from: real, k: nat)
    requires Ordered(answers, from) && k <= |answers|
    ensures Ordered(answers[..k], from)
    decreases |answers|
  {
    if k > 0 {
      OrderedPrefix(answers[1..], answers[0].at, k - 1);
      assert answers[..k][1..] == answers[1..][..k - 1];
    }
  }

  /** A request of an IP is refused exactly if there is a moment since which its earlier admissions and itself
      would exceed the burst and the refill since then. So no request is refused that the limit allows. */
  lemma RefusedIff(cfg: Config, events: seq<Event>, now: real, g: real, ip: string, m: nat)
    requires cfg.interval > 0.0 && EvictionInvisible(cfg, g) && Timely(cfg, START, events, now, g)
    requires m < |OfIp(Answers(cfg, START, events, now, g), ip)|
    ensures var mine := OfIp(Answers(cfg, START, events, now, g), ip);
      !mine[m].admitted <==> exists lo: real :: Overdrawn(cfg, mine[..m], lo, mine[m].at)
  {
    var mine := OfIp(Answers(cfg, START, events, now, g), ip);
    AnswersAreThoseOfOneBucket(cfg, events, now, g, ip);
    AnswersAreOrdered(cfg, START, events, now, now, g);
    OfIpIsOrdered(Answers(cfg, START, events, now, g), ip, now, now);
    if mine[m].admitted {
      forall lo: real
        ensures !Overdrawn(cfg, mine[..m], lo, mine[m].at)
      {
        AdmittedIsNotOverdrawn(cfg, mine, m, now, lo);
      }
    } else {
      var lo := RefusedIsOverdrawn(cfg, mine, m, now);
    }
  }

  // When eviction shows.

  /** n requests of IP "a" get the limiter at time t. */
  function Gets(n: nat, t: real): seq<Event> {
    if n == 0 then [] else [GetLimiter("a", t)] + Gets(n - 1, t)
  }

  /** n requests, numbered from `first`, ask at time t. */
  function Asks(first: nat, n: nat, t: real): seq<Event>
    decreases n
  {
    if n == 0 then [] else [Allow(first, t)] + Asks(first + 1, n - 1, t)
  }

  function Copies<T>(n: nat, x: T): seq<T> {
    seq(n, _ => x)
  }

  /** The state in which IP "a" has limiter `id`, a bucket b, and n fresh requests after the others. */
  ghost predicate Armed(s: State, id: nat, b: Bucket, n: nat, t: real) {
    && id < |s.limiters| && s.limiters[id] == b && n <= |s.requests|
    && s.clients == map["a" := Client(id, t)]
    && forall r :: |s.requests| - n <= r < |s.requests| ==> s.requests[r] == Request("a", id, t)
  }

  /** The answers of `events` from s are those in `first` and then those of `rest` from s'. */
  ghost predicate LeadsTo(cfg: Config, s: State, events: seq<Event>, now: real, g: real,
                          first: seq<Answer>, s': State, rest: seq<Event>, later: real) {
    Timely(cfg, s', rest, later, g) ==>
      Timely(cfg, s, events, now, g) && Answers(cfg, s, events, now, g) == first + Answers(cfg, s', rest, later, g)
  }

  lemma StartEarlier(cfg: Config, s: State, events: seq<Event>, now: real, later: real, g: real)
    requires now <= later
    ensures LeadsTo(cfg, s, events, now, g, [], s, events, later)
  {
    assert Timely(cfg, s, events, later, g) ==>
      [] + Answers(cfg, s, events, later, g) == Answers(cfg, s, events, later, g);
  }

  lemma OneStepLeads(cfg: Config, s: State, e: Event, events: seq<Event>, now: real, g: real,
                     first: seq<Answer>, s': State, rest: seq<Event>, later: real)
    requires now <= e.at && Possible(s, e) && (e.Allow? ==> e.at <= s.requests[e.request].gotAt + g)
    requires LeadsTo(cfg, Step(cfg, s, e), events, e.at, g, first, s', rest, later)
    ensures LeadsTo(cfg, s, [e] + events, now, g, StepAnswers(cfg, s, e) + first, s', rest, later)
  {
    if Timely(cfg, s', rest, later, g) {
      assert ([e] + events)[1..] == events;
      var tail := Answers(cfg, s', rest, later, g);
      assert (StepAnswers(cfg, s, e) + first) + tail == StepAnswers(cfg, s, e) + (first + tail);
    }
  }

  lemma {:induction false} GetsLead(cfg: Config, s: State, id: nat, b: Bucket, k: nat, n: nat, t: real, g: real, rest: seq<Event>)
    returns (s': State)
    requires Armed(s, id, b, k, t)
    ensures Armed(s', id, b, k + n, t) && |s'.requests| == |s.requests| + n
    ensures LeadsTo(cfg, s, Gets(n, t) + rest, t, g, [], s', rest, t)
    decreases n
  {
    if n == 0 {
      s' := s;
      assert Gets(n, t) + rest == rest;
      StartEarlier(cfg, s, rest, t, t, g);
    } else {
      var e := GetLimiter("a", t);
      s' := GetsLead(cfg, AfterGet(cfg, s, "a", t), id, b, k + 1, n - 1, t, g, rest);
      OneStepLeads(cfg, s, e, Gets(n - 1, t) + rest, t, g, [], s', rest, t);
      assert Gets(n, t) + rest == [e] + (Gets(n - 1, t) + rest);
      assert StepAnswers(cfg, s, e) + [] == [];
    }
  }

  lemma {:induction false} AsksLead(cfg: Config, s: State, id: nat, n: nat, got: real, t: real, now: real, g: real, rest: seq<Event>)
    returns (s': State)
    requires n <= |s.requests| && id < |s.limiters|
    requires forall r :: |s.requests| - n <= r < |s.requests| ==> s.requests[r] == Request("a", id, got)
    requires now <= t <= got + g && cfg.burst >= 1 && cfg.interval > 0.0 && Level(cfg, s.limiters[id], t) >= Times(n, cfg.interval)
    ensures s'.clients == s.clients && s'.requests == s.requests
    ensures LeadsTo(cfg, s, Asks(|s.requests| - n, n, t) + rest, now, g, Copies(n, Answer("a", t, true)), s', rest, t)
    decreases n
  {
    if n == 0 {
      s' := s;
      assert Asks(|s.requests|, 0, t) + rest == rest;
      StartEarlier(cfg, s, rest, now, t, g);
    } else {
      var first := |s.requests| - n;
      var e, a := Allow(first, t), Answer("a", t, true);
      var s1 := Step(cfg, s, e);
      TimesNonNegative(n - 1, cfg.interval);
      s' := AsksLead(cfg, s1, id, n - 1, got, t, t, g, rest);
      OneStepLeads(cfg, s, e, Asks(first + 1, n - 1, t) + rest, now, g, Copies(n - 1, a), s', rest, t);
      assert Asks(first, n, t) + rest == [e] + (Asks(first + 1, n - 1, t) + rest);
      assert Copies(n, a) == StepAnswers(cfg, s, e) + Copies(n - 1, a);
    }
  }

  /** From an empty map, `burst` requests that get a limiter at t are all admitted at `ask`. */
  lemma FullBurst(cfg: Config, s: State, t: real, ask: real, g: real, rest: seq<Event>) returns (s': State)
    requires s.clients == map[] && cfg.interval > 0.0 && cfg.burst >= 1 && 0.0 <= t <= ask <= t + g
    ensures s'.clients.Keys == {"a"} && s'.clients["a"].lastSeen == t && |s'.requests| == |s.requests| + cfg.burst
    ensures LeadsTo(cfg, s, Gets(cfg.burst, t) + (Asks(|s.requests|, cfg.burst, ask) + rest), t, g,
                    Copies(cfg.burst, Answer("a", ask, true)), s', rest, ask)
  {
    var n, id, e := cfg.burst, |s.limiters|, GetLimiter("a", t);
    var asks := Asks(|s.requests|, n, ask) + rest;
    var s1 := AfterGet(cfg, s, "a", t);
    var s2 := GetsLead(cfg, s1, id, Fresh(cfg), 1, n - 1, t, g, asks);
    s' := AsksLead(cfg, s2, id, n, t, ask, t, g, rest);
    OneStepLeads(cfg, s, e, Gets(n - 1, t) + asks, t, g, [], s2, asks, t);
    assert Gets(n, t) + asks == [e] + (Gets(n - 1, t) + asks);
    assert StepAnswers(cfg, s, e) + [] == [];
    var answers := Copies(n, Answer("a", ask, true));
    if Timely(cfg, s', rest, ask, g) {
      assert [] + (answers + Answers(cfg, s', rest, ask, g)) == answers + Answers(cfg, s', rest, ask, g);
    }
  }

  lemma {:induction false} CopiesAreAdmitted(n: nat, t: real, rest: seq<Answer>, lo: real, hi: real)
    requires lo <= t <= hi
    ensures Admitted(OfIp(Copies(n, Answer("a", t, true)) + rest, "a"), lo, hi) == n + Admitted(OfIp(rest, "a"), lo, hi)
  {
    var a := Answer("a", t, true);
    if n == 0 {
      assert Copies(0, a) + rest == rest;
    } else {
      CopiesAreAdmitted(n - 1, t, rest, lo, hi);
      var all := Copies(n, a) + rest;
      assert all[0] == a && all[1..] == Copies(n - 1, a) + rest;
      assert OfIp(all, "a")[1..] == OfIp(all[1..], "a");
    }
  }

  /** Two full bursts of one IP, the second after it has been forgotten, are all admitted. */
  lemma TwoBursts(cfg: Config, h: real, c: real, g: real) returns (events: seq<Event>)
    requires cfg.interval > 0.0 && cfg.burst >= 1 && 0.0 <= h <= g && h <= IDLE_LIMIT < c
    ensures Timely(cfg, START, events, 0.0, g)
    ensures Admitted(OfIp(Answers(cfg, START, events, 0.0, g), "a"), h, c) == 2 * cfg.burst
  {
    var n := cfg.burst;
    var second := Gets(n, c) + (Asks(n, n, c) + []);
    var rest := [Cleanup(c)] + second;
    events := Gets(n, 0.0) + (Asks(0, n, h) + rest);
    var s1 := FullBurst(cfg, START, 0.0, h, g, rest);
    var s2 := Step(cfg, s1, Cleanup(c));
    assert s2.clients == map[];
    var s3 := FullBurst(cfg, s2, c, c, g, []);
    var a1, a2 := Copies(n, Answer("a", h, true)), Copies(n, Answer("a", c, true));
    OneStepLeads(cfg, s1, Cleanup(c), second, h, g, a2, s3, [], c);
    assert StepAnswers(cfg, s1, Cleanup(c)) + a2 == a2;
    assert Answers(cfg, START, events, 0.0, g) == a1 + (a2 + []);
    CopiesAreAdmitted(n, h, a2 + [], h, c);
    CopiesAreAdmitted(n, c, [], h, c);
  }

  lemma {:induction false} TimesAdds(m: nat, n: nat, x: real)
    ensures Times(m + n, x) == Times(m, x) + Times(n, x)
  {
    if m > 0 {
      TimesAdds(m - 1, n, x);
    }
  }

  lemma EvictionShows(cfg: Config, g: real)
    requires cfg.interval > 0.0 && g >= 0.0 && cfg.burst >= 1 && Capacity(cfg) > IDLE_LIMIT - g
    ensures !EvictionInvisible(cfg, g)
  {
    TimesNonNegative(cfg.burst, cfg.interval);
    var h := if g <= IDLE_LIMIT then g else IDLE_LIMIT;
    var c := IDLE_LIMIT + (Capacity(cfg) - (IDLE_LIMIT - h)) / 2.0;
    var events := TwoBursts(cfg, h, c, g);
    TimesAdds(cfg.burst, cfg.burst, cfg.interval);
    if EvictionInvisible(cfg, g) {
      SpentBound(cfg, events, 0.0, g, "a", h, c);
    }
  }

  /** Forgetting idle clients changes no answer of any run exactly when the bucket refills within the
      idle limit less the gap between getting a limiter and asking it, burst * interval <= 180 - g (or
      never holds a token). */
  lemma EvictionInvisibleIff(cfg: Config, g: real)
    requires cfg.interval > 0.0 && g >= 0.0
    ensures EvictionInvisible(cfg, g) <==> cfg.burst == 0 || Capacity(cfg) <= IDLE_LIMIT - g
  {
    if cfg.burst == 0 {
      forall events, now: real | Timely(cfg, START, events, now, g)
        ensures var answers := Answers(cfg, START, events, now, g); answers == NeverEvicting(cfg, map[], answers)
      {
        NoBurstNoAnswer(cfg, START, map[], events, now, g);
      }
    } else if Capacity(cfg) <= IDLE_LIMIT - g {
      TimesNonNegative(cfg.burst, cfg.interval);
      forall events, now: real | Timely(cfg, START, events, now, g)
        ensures var answers := Answers(cfg, START, events, now, g); answers == NeverEvicting(cfg, map[], answers)
      {
        StartIsSimulated(cfg, now, g);
        SimulatedRun(cfg, START, map[], events, now, g);
      }
    } else {
      EvictionShows(cfg, g);
    }
  }

  /** Both installed limiters are safe: 300 tokens at one in 100 ms with any gap up to 150 s, and 100 at
      one per second with any gap up to 80 s; neither bound can be raised. */
  lemma InstalledLimiters(g: real)
    requires g >= 0.0
    ensures EvictionInvisible(Config(0.1, 300), g) <==> g <= 150.0
    ensures EvictionInvisible(Config(1.0, 100), g) <==> g <= 80.0
  {
    TimesIsProduct(300, 0.1);
    TimesIsProduct(100, 1.0);
    EvictionInvisibleIff(Config(0.1, 300), g);
    EvictionInvisibleIff(Config(1.0, 100), g);
  }
}
