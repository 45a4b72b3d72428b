/**
 WebSocket connections: global and per-address caps, heartbeat, a token bucket per
 connection, and eviction of slow consumers.
 */
module WsManager {
  import opened Wrappers

  datatype Connection = Connection(ip: string, isAlive: bool, subscriptions: set<string>)

  /** A token bucket: what is left, and when (in milliseconds) it was last refilled. */
  datatype Bucket = Bucket(tokens: real, last: int)

  datatype Limits = Limits(maxConnections: nat, maxPerIp: nat, msgRate: nat, maxBufferedBytes: nat)

  /** Live connections and their buckets. */
  datatype Table = Table(connections: map<string, Connection>, rate: map<string, Bucket>)

  const EMPTY := Table(map[], map[])

  // ------------------------------------------------------------------ operations

  function IdsFrom(connections: map<string, Connection>, ip: string): set<string> {
    set id | id in connections && connections[id].ip == ip
  }

  predicate HasRoom(t: Table, limits: Limits, ip: string) {
    |t.connections| < limits.maxConnections && |IdsFrom(t.connections, ip)| < limits.maxPerIp
  }

  function Registered(t: Table, limits: Limits, id: string, conn: Connection, now: int): Table {
    if HasRoom(t, limits, conn.ip) then
      Table(t.connections[id := conn], t.rate[id := Bucket(limits.msgRate as real, now)])
    else t
  }

  function Without(t: Table, gone: set<string>): Table {
    Table(t.connections - gone, t.rate - gone)
  }

  function MinReal(a: real, b: real): real {
    if a < b then a else b
  }

  function Refill(msgRate: nat, elapsedMs: int): real {
    elapsedMs as real / 1000.0 * msgRate as real
  }

  function Refilled(b: Bucket, msgRate: nat, now: int): real {
    MinReal(msgRate as real, b.tokens + Refill(msgRate, now - b.last))
  }

  predicate AllowsMessage(t: Table, limits: Limits, id: string, now: int) {
    id in t.connections && id in t.rate && Refilled(t.rate[id], limits.msgRate, now) >= 1.0
  }

  /** A message spends a token; without one the connection is dropped. */
  function Messaged(t: Table, limits: Limits, id: string, now: int): Table {
    if id !in t.connections || id !in t.rate then t
    else if AllowsMessage(t, limits, id, now) then
      t.(rate := t.rate[id := Bucket(Refilled(t.rate[id], limits.msgRate, now) - 1.0, now)])
    else Without(t, {id})
  }

  function Silent(connections: map<string, Connection>): set<string> {
    set id | id in connections && !connections[id].isAlive
  }

  function Pinged(connections: map<string, Connection>): map<string, Connection> {
    map id | id in connections :: connections[id].(isAlive := false)
  }

  /** One heartbeat: whoever stayed silent since the last one goes, the rest must answer the next ping. */
  function Swept(t: Table): Table {
    var live := Without(t, Silent(t.connections));
    live.(connections := Pinged(live.connections))
  }

  function Subscribers(connections: map<string, Connection>, channel: string): set<string> {
    set id | id in connections && channel in connections[id].subscriptions
  }

  function Slow(t: Table, limits: Limits, channel: string, buffered: map<string, nat>): set<string> {
    set id | id in Subscribers(t.connections, channel) && id in buffered && buffered[id] > limits.maxBufferedBytes
  }

  // ------------------------------------------------------------ the stored object

  /** The per-address counters as a recount of the connections. */
  ghost predicate CountsAgree(connections: map<string, Connection>, perIp: map<string, nat>) {
    forall ip: string :: CountAgrees(|IdsFrom(connections, ip)|, perIp, ip)
  }

  predicate CountAgrees(live: nat, perIp: map<string, nat>, ip: string) {
    if ip in perIp then perIp[ip] == live && live > 0 else live == 0
  }

  class Manager {
    const limits: Limits
    var connections: map<string, Connection>
    var perIp: map<string, nat>
    var rate: map<string, Bucket>

    /** Every counter is the number of live connections from its address, with no
        zero entries, and every connection has a bucket. */
    ghost predicate Valid()
      reads this
    {
      CountsAgree(connections, perIp) && connections.Keys == rate.Keys
    }

    function State(): Table
      reads this
    {
      Table(connections, rate)
    }

    constructor (limits: Limits)
      ensures Valid() && this.limits == limits && State() == EMPTY
    {
      this.limits := limits;
      connections, perIp, rate := map[], map[], map[];
    }

    /** The counters stay right exactly when the id is not in use: a reused id
        replaces a connection that stays counted. */
    method Register(id: string, conn: Connection, now: int) returns (ok: bool)
      requires Valid()
      modifies this
      ensures ok == HasRoom(old(State()), limits, conn.ip)
      ensures State() == Registered(old(State()), limits, id, conn, now)
      ensures Valid() <==> !ok || id !in old(connections)
    {
      CountOf(connections, perIp, conn.ip);
      if |connections| >= limits.maxConnections {
        return false;
      }
      var ipCount := if conn.ip in perIp then perIp[conn.ip] else 0;
      if ipCount >= limits.maxPerIp {
        return false;
      }
      if id !in connections {
        AddKeepsCounts(connections, perIp, id, conn);
      } else {
        ReuseBreaksCounts(connections, perIp, id, conn);
      }
      connections := connections[id := conn];
      perIp := perIp[conn.ip := ipCount + 1];
      rate := rate[id := Bucket(limits.msgRate as real, now)];
      return true;
    }

    method Unregister(id: string)
      requires Valid()
      modifies this
      ensures Valid()
      ensures State() == Without(old(State()), {id})
    {
      if id !in connections {
        assert connections - {id} == connections && rate - {id} == rate;
        return;
      }
      var conn := connections[id];
      CountOf(connections, perIp, conn.ip);
      DropKeepsCounts(connections, perIp, id);
      connections := connections - {id};
      rate := rate - {id};
      var ipCount := if conn.ip in perIp then perIp[conn.ip] else 0;
      if ipCount <= 1 {
        perIp := perIp - {conn.ip};
      } else {
        perIp := perIp[conn.ip := ipCount - 1];
      }
    }

    method AllowMessage(id: string, now: int) returns (ok: bool)
      requires Valid()
      modifies this
      ensures Valid()
      ensures ok == AllowsMessage(old(State()), limits, id, now)
      ensures State() == Messaged(old(State()), limits, id, now)
    {
      if id !in connections || id !in rate {
        return false;
      }
      var tokens := Refilled(rate[id], limits.msgRate, now);
      if tokens < 1.0 {
        Unregister(id);
        return false;
      }
      rate := rate[id := Bucket(tokens - 1.0, now)];
      return true;
    }

    method PingSweep()
      requires Valid()
      modifies this
      ensures Valid()
      ensures State() == Swept(old(State()))
    {
      var pending := connections.Keys;
      while pending != {}
        invariant Valid() && pending <= connections.Keys
        invariant State() == HalfSwept(old(State()), pending)
        decreases pending
      {
        var id :| id in pending;
        HalfSweptStep(old(State()), pending, id);
        if !connections[id].isAlive {
          Unregister(id);
        } else {
          KeepsAddress(connections, perIp, id, connections[id].(isAlive := false));
          connections := connections[id := connections[id].(isAlive := false)];
        }
        pending := pending - {id};
      }
      HalfSweptEnd(old(State()));
    }

    /** Sends to the subscribers that keep up and evicts the others afterwards. */
    method Broadcast(channel: string, buffered: map<string, nat>) returns (sent: set<string>)
      requires Valid()
      modifies this
      ensures Valid()
      ensures sent == Subscribers(old(connections), channel) - Slow(old(State()), limits, channel, buffered)
      ensures State() == Without(old(State()), Slow(old(State()), limits, channel, buffered))
    {
      sent := {};
      var slow, todo := {}, connections.Keys;
      while todo != {}
        invariant todo <= connections.Keys
        invariant slow == Slow(State(), limits, channel, buffered) - todo
        invariant sent == Subscribers(connections, channel) - Slow(State(), limits, channel, buffered) - todo
        decreases todo
      {
        var id :| id in todo;
        todo := todo - {id};
        if channel in connections[id].subscriptions {
          if id in buffered && buffered[id] > limits.maxBufferedBytes {
            slow := slow + {id};
          } else {
            sent := sent + {id};
          }
        }
      }
      var pending := slow;
      assert Without(State(), slow - pending) == State() by {
        assert connections - {} == connections && rate - {} == rate;
      }
      while pending != {}
        invariant Valid() && pending <= slow
        invariant State() == Without(old(State()), slow - pending)
        decreases pending
      {
        var id :| id in pending;
        Unregister(id);
        WithoutMore(old(State()), slow - pending, id);
        assert slow - pending + {id} == slow - (pending - {id});
        pending := pending - {id};
      }
      assert slow - {} == slow;
    }
  }

  // ------------------------------------------------------------- counter upkeep

  lemma CountOf(connections: map<string, Connection>, perIp: map<string, nat>, ip: string)
    requires CountsAgree(connections, perIp)
    ensures |IdsFrom(connections, ip)| == if ip in perIp then perIp[ip] else 0
  {
    assert CountAgrees(|IdsFrom(connections, ip)|, perIp, ip);
  }

  lemma IdsAfterAdd(connections: map<string, Connection>, id: string, conn: Connection, ip: string)
    requires id !in connections
    ensures |IdsFrom(connections[id := conn], ip)| == |IdsFrom(connections, ip)| + if ip == conn.ip then 1 else 0
  {
    assert IdsFrom(connections[id := conn], ip) == IdsFrom(connections, ip) + if ip == conn.ip then {id} else {};
  }

  lemma IdsAfterDrop(connections: map<string, Connection>, id: string, ip: string)
    requires id in connections
    ensures |IdsFrom(connections - {id}, ip)| == |IdsFrom(connections, ip)| - if ip == connections[id].ip then 1 else 0
  {
    assert ip == connections[id].ip ==> id in IdsFrom(connections, ip);
    assert IdsFrom(connections - {id}, ip) == IdsFrom(connections, ip) - if ip == connections[id].ip then {id} else {};
  }

  lemma AddKeepsCounts(connections: map<string, Connection>, perIp: map<string, nat>, id: string, conn: Connection)
    requires CountsAgree(connections, perIp) && id !in connections
    ensures CountsAgree(connections[id := conn], perIp[conn.ip := |IdsFrom(connections, conn.ip)| + 1])
  {
    var after, perIp' := connections[id := conn], perIp[conn.ip := |IdsFrom(connections, conn.ip)| + 1];
    forall ip: string
      ensures CountAgrees(|IdsFrom(after, ip)|, perIp', ip)
    {
      assert CountAgrees(|IdsFrom(connections, ip)|, perIp, ip);
      IdsAfterAdd(connections, id, conn, ip);
    }
  }

  lemma DropKeepsCounts(connections: map<string, Connection>, perIp: map<string, nat>, id: string)
    requires CountsAgree(connections, perIp) && id in connections
    ensures var ip := connections[id].ip;
            && ip in perIp
            && CountsAgree(connections - {id}, if perIp[ip] <= 1 then perIp - {ip} else perIp[ip := perIp[ip] - 1])
  {
    var gone := connections[id].ip;
    assert CountAgrees(|IdsFrom(connections, gone)|, perIp, gone);
    IdsAfterDrop(connections, id, gone);
    var after := connections - {id};
    var perIp' := if perIp[gone] <= 1 then perIp - {gone} else perIp[gone := perIp[gone] - 1];
    forall ip: string
      ensures CountAgrees(|IdsFrom(after, ip)|, perIp', ip)
    {
      assert CountAgrees(|IdsFrom(connections, ip)|, perIp, ip);
      IdsAfterDrop(connections, id, ip);
    }
  }

  lemma ReuseBreaksCounts(connections: map<string, Connection>, perIp: map<string, nat>, id: string, conn: Connection)
    requires CountsAgree(connections, perIp) && id in connections
    ensures !CountsAgree(connections[id := conn], perIp[conn.ip := |IdsFrom(connections, conn.ip)| + 1])
  {
    var ip, after := connections[id].ip, connections[id := conn];
    assert CountAgrees(|IdsFrom(connections, ip)|, perIp, ip);
    if ip == conn.ip {
      assert IdsFrom(after, ip) == IdsFrom(connections, ip);
    } else {
      assert IdsFrom(after, ip) == IdsFrom(connections, ip) - {id};
    }
    assert !CountAgrees(|IdsFrom(after, ip)|, perIp[conn.ip := |IdsFrom(connections, conn.ip)| + 1], ip);
  }

  lemma KeepsAddress(connections: map<string, Connection>, perIp: map<string, nat>, id: string, conn: Connection)
    requires CountsAgree(connections, perIp) && id in connections && connections[id].ip == conn.ip
    ensures CountsAgree(connections[id := conn], perIp)
  {
    var after := connections[id := conn];
    forall ip: string
      ensures IdsFrom(after, ip) == IdsFrom(connections, ip)
    {
    }
  }

  lemma WithoutMore(t: Table, gone: set<string>, id: string)
    ensures Without(Without(t, gone), {id}) == Without(t, gone + {id})
  {
    assert t.connections - gone - {id} == t.connections - (gone + {id});
    assert t.rate - gone - {id} == t.rate - (gone + {id});
  }

  /** The sweep halfway: everybody outside `pending` has been dealt with. */
  function HalfSwept(t: Table, pending: set<string>): Table {
    var gone := Silent(t.connections) - pending;
    Table(map id | id in t.connections && id !in gone ::
            if id in pending then t.connections[id] else t.connections[id].(isAlive := false),
          t.rate - gone)
  }

  lemma HalfSweptStep(t: Table, pending: set<string>, id: string)
    requires id in pending && id in t.connections
    ensures HalfSwept(t, pending).connections[id] == t.connections[id]
    ensures !t.connections[id].isAlive ==> HalfSwept(t, pending - {id}) == Without(HalfSwept(t, pending), {id})
    ensures t.connections[id].isAlive ==>
              HalfSwept(t, pending - {id}) == HalfSwept(t, pending).(
                connections := HalfSwept(t, pending).connections[id := t.connections[id].(isAlive := false)])
  {
    var gone := Silent(t.connections) - pending;
    if t.connections[id].isAlive {
      assert Silent(t.connections) - (pending - {id}) == gone;
    } else {
      assert Silent(t.connections) - (pending - {id}) == gone + {id};
      assert t.rate - gone - {id} == t.rate - (gone + {id});
    }
  }

  lemma HalfSweptEnd(t: Table)
    ensures HalfSwept(t, {}) == Swept(t)
  {
    assert Silent(t.connections) - {} == Silent(t.connections);
  }

  // ------------------------------------------------------------------------ runs

  datatype Op =
    | Open(id: string, conn: Connection)
    | Close(id: string)
    | Message(id: string)
    | Sweep
    | Pong(id: string)
    | Subscribe(id: string, channels: set<string>)
    | Push(channel: string, buffered: map<string, nat>)

  datatype Timed = Timed(now: int, op: Op)

  function Touched(t: Table, id: string, conn: Connection): Table {
    t.(connections := t.connections[id := conn])
  }

  function Apply(t: Table, limits: Limits, e: Timed): Table {
    match e.op
    case Open(id, conn) => Registered(t, limits, id, conn, e.now)
    case Close(id) => Without(t, {id})
    case Message(id) => Messaged(t, limits, id, e.now)
    case Sweep => Swept(t)
    case Pong(id) => if id in t.connections then Touched(t, id, t.connections[id].(isAlive := true)) else t
    case Subscribe(id, channels) => if id in t.connections then Touched(t, id, t.connections[id].(subscriptions := channels)) else t
    case Push(channel, buffered) => Without(t, Slow(t, limits, channel, buffered))
  }

  function Run(t: Table, limits: Limits, es: seq<Timed>): Table
    decreases |es|
  {
    if es == [] then t else Run(Apply(t, limits, es[0]), limits, es[1..])
  }

  /** New connections come with an unused id. */
  predicate FreshIds(t: Table, limits: Limits, es: seq<Timed>)
    decreases |es|
  {
    es != [] ==> (es[0].op.Open? ==> es[0].op.id !in t.connections) && FreshIds(Apply(t, limits, es[0]), limits, es[1..])
  }

  /** Both caps hold, and connections and buckets share their keys. */
  ghost predicate WithinCaps(t: Table, limits: Limits) {
    && t.connections.Keys == t.rate.Keys
    && |t.connections| <= limits.maxConnections
    && (forall ip: string :: |IdsFrom(t.connections, ip)| <= limits.maxPerIp)
  }

  /** Fewer or unchanged addresses stay within the caps. */
  lemma ShrinkKeepsCaps(t: Table, u: Table, limits: Limits)
    requires WithinCaps(t, limits) && u.connections.Keys == u.rate.Keys
    requires u.connections.Keys <= t.connections.Keys
    requires forall id :: id in u.connections ==> u.connections[id].ip == t.connections[id].ip
    ensures WithinCaps(u, limits)
  {
    SubsetSize(u.connections.Keys, t.connections.Keys);
    assert |u.connections.Keys| == |u.connections| && |t.connections.Keys| == |t.connections|;
    forall ip: string
      ensures |IdsFrom(u.connections, ip)| <= limits.maxPerIp
    {
      SubsetSize(IdsFrom(u.connections, ip), IdsFrom(t.connections, ip));
    }
  }

  lemma OpenKeepsCaps(t: Table, limits: Limits, id: string, conn: Connection, now: int)
    requires WithinCaps(t, limits) && id !in t.connections
    ensures WithinCaps(Registered(t, limits, id, conn, now), limits)
  {
    if HasRoom(t, limits, conn.ip) {
      KeyAdded(t.connections, id, conn);
      var added := t.connections[id := conn];
      forall ip: string
        ensures |IdsFrom(added, ip)| <= limits.maxPerIp
      {
        IdsAfterAdd(t.connections, id, conn, ip);
        assert |IdsFrom(t.connections, ip)| <= limits.maxPerIp;
      }
    }
  }

  lemma KeyAdded(connections: map<string, Connection>, id: string, conn: Connection)
    requires id !in connections
    ensures |connections[id := conn]| == |connections| + 1
  {
    assert connections[id := conn].Keys == connections.Keys + {id};
    assert |connections[id := conn].Keys| == |connections[id := conn]| && |connections.Keys| == |connections|;
  }

  /** In every state reachable by opens with fresh ids, closes, messages, sweeps,
      pongs, subscriptions and broadcasts, both caps hold. */
  lemma {:induction false} CapsHoldInEveryRun(t: Table, limits: Limits, es: seq<Timed>)
    requires WithinCaps(t, limits) && FreshIds(t, limits, es)
    ensures WithinCaps(Run(t, limits, es), limits)
    decreases |es|
  {
    if es != [] {
      var u := Apply(t, limits, es[0]);
      match es[0].op {
        case Open(id, conn) => OpenKeepsCaps(t, limits, id, conn, es[0].now);
        case _ => ShrinkKeepsCaps(t, u, limits);
      }
      CapsHoldInEveryRun(u, limits, es[1..]);
    }
  }

  // ------------------------------------------------------------------ rate bound

  /** Messages of one connection that pass during a run. */
  function Passed(t: Table, limits: Limits, es: seq<Timed>, id: string): nat
    decreases |es|
  {
    if es == [] then 0
    else
      (if es[0].op == Message(id) && AllowsMessage(t, limits, id, es[0].now) then 1 else 0)
      + Passed(Apply(t, limits, es[0]), limits, es[1..], id)
  }

  /** Times lie between `start` and `end` and do not go back. */
  predicate Between(es: seq<Timed>, start: int, end: int)
    decreases |es|
  {
    if es == [] then start <= end else start <= es[0].now && Between(es[1..], es[0].now, end)
  }

  /** The tokens the connection could spend right now. */
  function Budget(t: Table, limits: Limits, id: string, now: int): real {
    if id in t.connections && id in t.rate then Refilled(t.rate[id], limits.msgRate, now) else 0.0
  }

  lemma RefillAdds(msgRate: nat, a: int, b: int)
    requires a >= 0 && b >= 0
    ensures Refill(msgRate, a + b) == Refill(msgRate, a) + Refill(msgRate, b)
    ensures Refill(msgRate, a) >= 0.0
  {
    var r := msgRate as real;
    assert (a + b) as real / 1000.0 == a as real / 1000.0 + b as real / 1000.0;
    Distributes(a as real / 1000.0, b as real / 1000.0, r);
  }

  lemma Distributes(x: real, y: real, r: real)
    requires x >= 0.0 && y >= 0.0 && r >= 0.0
    ensures (x + y) * r == x * r + y * r && x * r >= 0.0
  {
  }

  /** Buckets were last touched no later than `now` and are not overdrawn. */
  ghost predicate Settled(t: Table, now: int) {
    forall id :: id in t.rate ==> t.rate[id].last <= now && t.rate[id].tokens >= 0.0
  }

  lemma RefilledGrows(b: Bucket, msgRate: nat, before: int, now: int)
    requires b.tokens >= 0.0 && b.last <= before <= now
    ensures 0.0 <= Refilled(b, msgRate, now) <= msgRate as real
    ensures Refilled(b, msgRate, now) <= Refilled(b, msgRate, before) + Refill(msgRate, now - before)
  {
    RefillAdds(msgRate, before - b.last, now - before);
    assert (before - b.last) + (now - before) == now - b.last;
  }

  lemma BudgetGrows(t: Table, limits: Limits, id: string, before: int, now: int)
    requires before <= now && Settled(t, before)
    ensures Budget(t, limits, id, now) <= Budget(t, limits, id, before) + Refill(limits.msgRate, now - before)
    ensures 0.0 <= Budget(t, limits, id, now) <= limits.msgRate as real
  {
    if id in t.connections && id in t.rate {
      RefilledGrows(t.rate[id], limits.msgRate, before, now);
    } else {
      RefillAdds(limits.msgRate, now - before, 0);
    }
  }

  /** One step takes from the budget what it lets through, and gives it nothing but the refill. */
  lemma StepSpends(t: Table, limits: Limits, e: Timed, id: string, before: int)
    requires before <= e.now && Settled(t, before)
    requires !(e.op.Open? && e.op.id == id)
    ensures Settled(Apply(t, limits, e), e.now)
    ensures (if e.op == Message(id) && AllowsMessage(t, limits, id, e.now) then 1.0 else 0.0)
              + Budget(Apply(t, limits, e), limits, id, e.now)
              <= Budget(t, limits, id, before) + Refill(limits.msgRate, e.now - before)
  {
    BudgetGrows(t, limits, id, before, e.now);
    StepSettles(t, limits, e, before);
    match e.op {
      case Message(other) =>
        if other == id && AllowsMessage(t, limits, id, e.now) {
          var tokens := Refilled(t.rate[id], limits.msgRate, e.now);
          RefillAdds(limits.msgRate, 0, 0);
          assert Refill(limits.msgRate, 0) == 0.0;
          assert Apply(t, limits, e).rate[id] == Bucket(tokens - 1.0, e.now);
        }
      case _ =>
    }
  }

  lemma StepSettles(t: Table, limits: Limits, e: Timed, before: int)
    requires before <= e.now && Settled(t, before)
    ensures Settled(Apply(t, limits, e), e.now)
  {
  }

  /** Over any stretch of time one connection passes at most a full bucket plus
      the refill: `msgRate + msgRate * seconds` messages, whatever else happens
      on the server meanwhile. */
  lemma {:induction false} RateIsBounded(t: Table, limits: Limits, es: seq<Timed>, id: string, start: int, end: int)
    requires Settled(t, start) && Between(es, start, end)
    requires forall i :: 0 <= i < |es| ==> !(es[i].op.Open? && es[i].op.id == id)
    ensures Passed(t, limits, es, id) as real <= Budget(t, limits, id, start) + Refill(limits.msgRate, end - start)
    ensures Passed(t, limits, es, id) as real <= limits.msgRate as real + Refill(limits.msgRate, end - start)
    decreases |es|
  {
    BudgetGrows(t, limits, id, start, start);
    if es == [] {
      RefillAdds(limits.msgRate, end - start, 0);
    } else {
      var u, now := Apply(t, limits, es[0]), es[0].now;
      StepSpends(t, limits, es[0], id, start);
      RateIsBounded(u, limits, es[1..], id, now, end);
      Ordered(es[1..], now, end);
      RefillAdds(limits.msgRate, now - start, end - now);
    }
  }

  lemma {:induction false} Ordered(es: seq<Timed>, start: int, end: int)
    requires Between(es, start, end)
    ensures start <= end
    decreases |es|
  {
    if es != [] {
      Ordered(es[1..], es[0].now, end);
    }
  }

  /** The event does not take this connection away: nobody reopens or closes its
      id, it has answered the last ping when the heartbeat sweeps, and it keeps up
      with what is broadcast to it. */
  predicate Spares(t: Table, limits: Limits, e: Timed, id: string) {
    match e.op
    case Open(other, _) => other != id
    case Close(other) => other != id
    case Sweep => id !in Silent(t.connections)
    case Push(channel, buffered) => id !in Slow(t, limits, channel, buffered)
    case _ => true
  }

  /** Anything may happen on the server that spares the connection; its own messages
      come at least one token's time after the one before. */
  predicate Steady(t: Table, limits: Limits, es: seq<Timed>, id: string, before: int)
    decreases |es|
  {
    es != [] ==>
      var own := es[0].op == Message(id);
      && Spares(t, limits, es[0], id)
      && (own ==> (es[0].now - before) * limits.msgRate >= 1000)
      && Steady(Apply(t, limits, es[0]), limits, es[1..], id, if own then es[0].now else before)
  }

  /** Messages of one connection during a run. */
  function Sent(es: seq<Timed>, id: string): nat {
    if es == [] then 0 else (if es[0].op == Message(id) then 1 else 0) + Sent(es[1..], id)
  }

  /** A client that keeps to the sustained rate is never cut off, whatever the others do. */
  lemma {:induction false} SteadyClientPasses(t: Table, limits: Limits, es: seq<Timed>, id: string)
    requires limits.msgRate >= 1 && id in t.connections && id in t.rate
    requires t.rate[id].tokens >= 0.0 && Steady(t, limits, es, id, t.rate[id].last)
    ensures Passed(t, limits, es, id) == Sent(es, id)
    ensures id in Run(t, limits, es).connections
    decreases |es|
  {
    if es != [] {
      SteadyStep(t, limits, es[0], id);
      SteadyClientPasses(Apply(t, limits, es[0]), limits, es[1..], id);
    }
  }

  lemma SteadyStep(t: Table, limits: Limits, e: Timed, id: string)
    requires limits.msgRate >= 1 && id in t.connections && id in t.rate && t.rate[id].tokens >= 0.0
    requires Spares(t, limits, e, id)
    requires e.op == Message(id) ==> (e.now - t.rate[id].last) * limits.msgRate >= 1000
    ensures var u := Apply(t, limits, e);
            && id in u.connections && id in u.rate && u.rate[id].tokens >= 0.0
            && u.rate[id].last == (if e.op == Message(id) then e.now else t.rate[id].last)
    ensures e.op == Message(id) ==> AllowsMessage(t, limits, id, e.now)
  {
    if e.op == Message(id) {
      OneTokenRefilled(limits.msgRate, e.now - t.rate[id].last);
    }
  }

  lemma OneTokenRefilled(msgRate: nat, elapsed: int)
    requires elapsed * msgRate >= 1000
    ensures Refill(msgRate, elapsed) >= 1.0
  {
    assert elapsed as real * msgRate as real == (elapsed * msgRate) as real;
    assert Refill(msgRate, elapsed) == elapsed as real * msgRate as real / 1000.0;
  }

  // --------------------------------------------------------------------- a fresh bucket

  /** The same message `n` times at one moment. */
  function Burst(id: string, now: int, n: nat): seq<Timed> {
    if n == 0 then [] else [Timed(now, Message(id))] + Burst(id, now, n - 1)
  }

  lemma NoRefill(b: Bucket, msgRate: nat)
    requires b.tokens <= msgRate as real
    ensures Refilled(b, msgRate, b.last) == b.tokens
  {
    assert Refill(msgRate, 0) == 0.0 by {
      RefillAdds(msgRate, 0, 0);
    }
  }

  /** Out of `n` messages at one moment exactly as many pass as the bucket holds. */
  lemma {:induction false} BurstPasses(t: Table, limits: Limits, id: string, now: int, n: nat, tokens: nat)
    requires id in t.connections && id in t.rate
    requires t.rate[id] == Bucket(tokens as real, now) && tokens <= limits.msgRate
    ensures Passed(t, limits, Burst(id, now, n), id) == if n <= tokens then n else tokens
    decreases n
  {
    if n > 0 {
      var u := Apply(t, limits, Timed(now, Message(id)));
      var es := Burst(id, now, n);
      assert es[0] == Timed(now, Message(id)) && es[1..] == Burst(id, now, n - 1);
      NoRefill(t.rate[id], limits.msgRate);
      if tokens > 0 {
        assert u.rate[id] == Bucket((tokens - 1) as real, now);
        BurstPasses(u, limits, id, now, n - 1, tokens - 1);
      } else {
        GoneAfterwards(u, limits, id, now, n - 1);
      }
    }
  }

  lemma {:induction false} GoneAfterwards(t: Table, limits: Limits, id: string, now: int, n: nat)
    requires id !in t.connections
    ensures Passed(t, limits, Burst(id, now, n), id) == 0
    decreases n
  {
    if n > 0 {
      var es := Burst(id, now, n);
      assert es[0] == Timed(now, Message(id)) && es[1..] == Burst(id, now, n - 1);
      GoneAfterwards(Apply(t, limits, es[0]), limits, id, now, n - 1);
    }
  }

  /** A new connection starts with a full bucket: of `n` messages sent at once
      exactly `min(n, msgRate)` pass. */
  lemma FreshConnectionBursts(t: Table, limits: Limits, id: string, conn: Connection, now: int, n: nat)
    requires HasRoom(t, limits, conn.ip)
    ensures Passed(Registered(t, limits, id, conn, now), limits, Burst(id, now, n), id) == if n <= limits.msgRate then n else limits.msgRate
  {
    BurstPasses(Registered(t, limits, id, conn, now), limits, id, now, n, limits.msgRate);
  }

  // ------------------------------------------------------------------------ heartbeat

  /** Neither an answer nor a new connection under this id. */
  predicate Silence(es: seq<Timed>, id: string) {
    forall i :: 0 <= i < |es| ==> es[i].op != Pong(id) && !(es[i].op.Open? && es[i].op.id == id)
  }

  predicate Unanswered(t: Table, id: string) {
    id !in t.connections || !t.connections[id].isAlive
  }

  lemma {:induction false} SilenceStays(t: Table, limits: Limits, es: seq<Timed>, id: string)
    requires Unanswered(t, id) && Silence(es, id)
    ensures Unanswered(Run(t, limits, es), id)
    decreases |es|
  {
    if es != [] {
      assert es[0].op != Pong(id) && !(es[0].op.Open? && es[0].op.id == id);
      SilentStep(t, limits, es[0], id);
      assert Silence(es[1..], id);
      SilenceStays(Apply(t, limits, es[0]), limits, es[1..], id);
    }
  }

  lemma SilentStep(t: Table, limits: Limits, e: Timed, id: string)
    requires Unanswered(t, id) && e.op != Pong(id) && !(e.op.Open? && e.op.id == id)
    ensures Unanswered(Apply(t, limits, e), id)
  {
  }

  /** A connection that does not answer between two sweeps is gone after the second,
      whatever else happens in between; one that answered last is still there. */
  lemma SilentIsDropped(t: Table, limits: Limits, es: seq<Timed>, id: string)
    requires Silence(es, id)
    ensures id !in Swept(Run(Swept(t), limits, es)).connections
  {
    assert Unanswered(Swept(t), id);
    SilenceStays(Swept(t), limits, es, id);
  }

  lemma AnsweredIsKept(t: Table, limits: Limits, now: int, id: string)
    requires id in t.connections
    ensures id in Swept(Apply(t, limits, Timed(now, Pong(id)))).connections
  {
  }

  /** A broadcast evicts exactly the subscribers over the buffer limit. */
  lemma EvictsExactly(t: Table, limits: Limits, now: int, channel: string, buffered: map<string, nat>, id: string)
    requires id in t.connections && id in buffered
    ensures id !in Apply(t, limits, Timed(now, Push(channel, buffered))).connections <==>
            channel in t.connections[id].subscriptions && buffered[id] > limits.maxBufferedBytes
  {
  }

  // ------------------------------------------------------------------------- admission

  /** Connections opened one after another from one address. */
  function Opens(ids: seq<string>, conn: Connection, now: int): seq<Timed> {
    if ids == [] then [] else [Timed(now, Open(ids[0], conn))] + Opens(ids[1..], conn, now)
  }

  predicate Distinct(ids: seq<string>) {
    forall i, j :: 0 <= i < j < |ids| ==> ids[i] != ids[j]
  }

  /** The server is filled up and no further: of `n` connections opened from one address
      on an empty server exactly as many are admitted as both caps allow. */
  lemma AdmitsUpToCaps(limits: Limits, ids: seq<string>, conn: Connection, now: int)
    requires Distinct(ids)
    ensures |Run(EMPTY, limits, Opens(ids, conn, now)).connections|
         == Min(|ids|, Min(limits.maxConnections, limits.maxPerIp))
  {
    FillsUp(EMPTY, limits, ids, conn, now);
  }

  function Min(a: nat, b: nat): nat {
    if a < b then a else b
  }

  lemma {:induction false} FillsUp(t: Table, limits: Limits, ids: seq<string>, conn: Connection, now: int)
    requires Distinct(ids) && (forall i :: 0 <= i < |ids| ==> ids[i] !in t.connections)
    requires forall id :: id in t.connections ==> t.connections[id].ip == conn.ip
    requires |t.connections| <= Min(limits.maxConnections, limits.maxPerIp)
    ensures |Run(t, limits, Opens(ids, conn, now)).connections|
         == Min(|t.connections| + |ids|, Min(limits.maxConnections, limits.maxPerIp))
    decreases |ids|
  {
    if ids != [] {
      var es := Opens(ids, conn, now);
      assert es[0] == Timed(now, Open(ids[0], conn)) && es[1..] == Opens(ids[1..], conn, now);
      assert IdsFrom(t.connections, conn.ip) == t.connections.Keys;
      KeyAdded(t.connections, ids[0], conn);
      FillsUp(Apply(t, limits, es[0]), limits, ids[1..], conn, now);
    }
  }
}
