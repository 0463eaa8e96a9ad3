/**
 Counters that hand out tickets: whoever increments an atomic counter remembers the value it got,
 and gives the count back when it leaves.
 */
module Tickets {
  import opened Common

  type Id = nat

  /** Live holders with a ticket of at most `limit`. */
  ghost function UpTo(tickets: map<Id, nat>, limit: nat): set<Id> {
    set id | id in tickets && tickets[id] <= limit
  }

  /** However many come and go, at most `limit` live holders have a ticket of at most `limit`. */
  ghost predicate Fair(tickets: map<Id, nat>) {
    forall limit: nat :: |UpTo(tickets, limit)| <= limit
  }

  lemma TakeKeeps(tickets: map<Id, nat>, id: Id)
    requires Fair(tickets) && id !in tickets
    ensures Fair(tickets[id := |tickets| + 1])
  {
    var more := tickets[id := |tickets| + 1];
    forall limit: nat ensures |UpTo(more, limit)| <= limit {
      if limit <= |tickets| {
        assert UpTo(more, limit) == UpTo(tickets, limit);
      } else {
        SubsetCard(UpTo(more, limit), more.Keys);
        assert |more.Keys| == |more|;
      }
    }
  }

  lemma FewerKeeps(tickets: map<Id, nat>, fewer: map<Id, nat>)
    requires Fair(tickets)
    requires forall id :: id in fewer ==> id in tickets && fewer[id] == tickets[id]
    ensures Fair(fewer)
  {
    forall limit: nat ensures |UpTo(fewer, limit)| <= limit {
      SubsetCard(UpTo(fewer, limit), UpTo(tickets, limit));
    }
  }
}

/** Admission of requests under load (internal/api/flood.go): one process-wide counter and one per client address. */
module FloodGuard {
  import opened Common
  import opened Tickets

  type Ip = string

  datatype Config = Config(maxConcurrent: int, reserved: int, maxConnPerIp: int, publicConnPerIp: int)

  /** The share of the process-wide limit that anonymous requests may use. */
  function PublicLimit(maxConcurrent: int, reserved: int): (cap: int)
    ensures 1 <= cap
    ensures maxConcurrent >= 1 ==> cap <= maxConcurrent
    ensures 0 < reserved < maxConcurrent ==> cap + reserved == maxConcurrent
    ensures 0 < maxConcurrent <= reserved ==> cap == 1
    ensures reserved <= 0 < maxConcurrent ==> cap == maxConcurrent
    ensures maxConcurrent < 1 ==> cap == 1
  {
    if maxConcurrent < 1 then 1
    else if reserved <= 0 then maxConcurrent
    else
      var r := if reserved >= maxConcurrent then maxConcurrent - 1 else reserved;
      if maxConcurrent - r < 1 then 1 else maxConcurrent - r
  }

  predicate Sane(c: Config) {
    c.maxConcurrent >= 1 && c.maxConnPerIp >= 1
  }

  function Limit(c: Config, public: bool): (limit: nat)
    requires Sane(c)
    ensures 1 <= limit <= c.maxConcurrent
  {
    if public then PublicLimit(c.maxConcurrent, c.reserved) else c.maxConcurrent
  }

  function ConnLimit(c: Config, public: bool): (limit: nat)
    requires Sane(c)
    ensures 1 <= limit <= c.maxConnPerIp
    ensures public && 0 < c.publicConnPerIp ==> limit == Min(c.publicConnPerIp, c.maxConnPerIp)
    ensures !public || c.publicConnPerIp <= 0 ==> limit == c.maxConnPerIp
  {
    if public && 0 < c.publicConnPerIp < c.maxConnPerIp then c.publicConnPerIp else c.maxConnPerIp
  }

  function ConnOf(conns: map<Ip, int>, ip: Ip): int {
    if ip in conns then conns[ip] else 0
  }

  // ---------- the guard itself ----------

  datatype Verdict = Overloaded | Forbidden | TooManyConnections | MethodNotAllowed | Served

  class Guard {
    const config: Config
    var inFlight: int
    var conns: map<Ip, int>

    /** Limits below one are replaced by the defaults. */
    constructor (maxConcurrent: int, maxConnPerIp: int, reserved: int, publicConnPerIp: int)
      ensures Sane(config) && inFlight == 0 && conns == map[]
      ensures maxConcurrent >= 1 ==> config.maxConcurrent == maxConcurrent
      ensures maxConnPerIp >= 1 ==> config.maxConnPerIp == maxConnPerIp
      ensures maxConcurrent < 1 ==> config.maxConcurrent == 4096
      ensures maxConnPerIp < 1 ==> config.maxConnPerIp == 64
      ensures config.reserved == reserved && config.publicConnPerIp == publicConnPerIp
    {
      config := Config(
        if maxConcurrent < 1 then 4096 else maxConcurrent, reserved,
        if maxConnPerIp < 1 then 64 else maxConnPerIp, publicConnPerIp);
      inFlight, conns := 0, map[];
    }

    method AddInFlight(d: int) returns (cur: int)
      modifies this`inFlight
      ensures cur == inFlight == old(inFlight) + d
    {
      inFlight := inFlight + d;
      cur := inFlight;
    }

    method AddConn(ip: Ip, d: int) returns (n: int)
      modifies this`conns
      ensures conns == old(conns)[ip := n] && n == ConnOf(old(conns), ip) + d
    {
      n := ConnOf(conns, ip) + d;
      conns := conns[ip := n];
    }

    /** One request from end to end, undisturbed: whatever the verdict, every count it took is given back. */
    method Handle(public: bool, ip: Ip, blocked: bool, methodAllowed: bool) returns (v: Verdict)
      requires Sane(config)
      modifies this
      ensures inFlight == old(inFlight) && forall k :: ConnOf(conns, k) == ConnOf(old(conns), k)
      ensures v == Overloaded <==>
                old(inFlight) >=
                  if public then PublicLimit(config.maxConcurrent, config.reserved) else config.maxConcurrent
      ensures v == if old(inFlight) >= Limit(config, public) then Overloaded
                   else if blocked then Forbidden
                   else if ConnOf(old(conns), ip) >= ConnLimit(config, public) then TooManyConnections
                   else if !methodAllowed then MethodNotAllowed
                   else Served
    {
      var cur := AddInFlight(1);
      if cur > Limit(config, public) {
        v := Overloaded;
      } else if blocked {
        v := Forbidden;
      } else {
        var n := AddConn(ip, 1);
        v := if n > ConnLimit(config, public) then TooManyConnections
             else if !methodAllowed then MethodNotAllowed else Served;
        var _ := AddConn(ip, -1);
      }
      var _ := AddInFlight(-1);
    }
  }

  // ---------- all interleavings of requests ----------

  /** Between its atomic steps a request is in one of these phases; `Unwinding` runs the deferred releases. */
  datatype Phase = Ticketed | Cleared | ConnTicketed | Serving | Unwinding

  datatype Request = Request(public: bool, ip: Ip, phase: Phase, ticket: nat, conn: Option<nat>)

  /** `live` holds the requests that have counted themselves in and not yet out. */
  datatype World = World(inFlight: int, conns: map<Ip, int>, live: map<Id, Request>)

  datatype Event =
    | Arrive(id: Id, public: bool, ip: Ip)
    | CheckLimit(id: Id)
    | CountConn(id: Id, blocked: bool)
    | CheckConn(id: Id, methodAllowed: bool)
    | Finish(id: Id)
    | LeaveConn(id: Id)
    | Leave(id: Id)

  const INIT: World := World(0, map[], map[])

  ghost predicate Enabled(w: World, e: Event) {
    match e
    case Arrive(id, _, _) => id !in w.live
    case CheckLimit(id) => id in w.live && w.live[id].phase.Ticketed?
    case CountConn(id, _) => id in w.live && w.live[id].phase.Cleared?
    case CheckConn(id, _) => id in w.live && w.live[id].phase.ConnTicketed? && w.live[id].conn.Some?
    case Finish(id) => id in w.live && w.live[id].phase.Serving?
    case LeaveConn(id) => id in w.live && w.live[id].phase.Unwinding? && w.live[id].conn.Some?
    case Leave(id) => id in w.live && w.live[id].phase.Unwinding? && w.live[id].conn.None?
  }

  ghost function With(w: World, id: Id, r: Request): World {
    w.(live := w.live[id := r])
  }

  ghost function Next(c: Config, w: World, e: Event): World
    requires Sane(c) && Enabled(w, e)
  {
    match e
    case Arrive(id, public, ip) =>
      World(w.inFlight + 1, w.conns,
            w.live[id := Request(public, ip, Ticketed, if w.inFlight >= 0 then w.inFlight + 1 else 0, None)])
    case CheckLimit(id) =>
      var r := w.live[id];
      With(w, id, r.(phase := if r.ticket > Limit(c, r.public) then Unwinding else Cleared))
    case CountConn(id, blocked) =>
      var r := w.live[id];
      var n := ConnOf(w.conns, r.ip) + 1;
      if blocked then With(w, id, r.(phase := Unwinding))
      else World(w.inFlight, w.conns[r.ip := n],
                 w.live[id := r.(phase := ConnTicketed, conn := Some(if n >= 0 then n else 0))])
    case CheckConn(id, methodAllowed) =>
      var r := w.live[id];
      With(w, id, r.(phase := if r.conn.value > ConnLimit(c, r.public) || !methodAllowed then Unwinding else Serving))
    case Finish(id) => With(w, id, w.live[id].(phase := Unwinding))
    case LeaveConn(id) =>
      var r := w.live[id];
      World(w.inFlight, w.conns[r.ip := ConnOf(w.conns, r.ip) - 1], w.live[id := r.(conn := None)])
    case Leave(id) => World(w.inFlight - 1, w.conns, w.live - {id})
  }

  ghost function Step(c: Config, w: World, e: Event): World
    requires Sane(c)
  {
    if Enabled(w, e) then Next(c, w, e) else w
  }

  ghost function Exec(c: Config, evs: seq<Event>): World
    requires Sane(c)
  {
    if evs == [] then INIT else Step(c, Exec(c, evs[..|evs| - 1]), evs[|evs| - 1])
  }

  // ---------- the invariant ----------

  ghost function GlobalTickets(w: World): map<Id, nat> {
    map id | id in w.live :: w.live[id].ticket
  }

  ghost function ConnTickets(w: World, ip: Ip): map<Id, nat> {
    map id | id in w.live && w.live[id].ip == ip && w.live[id].conn.Some? :: w.live[id].conn.value
  }

  ghost predicate RequestOk(c: Config, r: Request)
    requires Sane(c)
  {
    && (r.phase.Ticketed? || r.phase.Cleared? ==> r.conn.None?)
    && (r.phase.ConnTicketed? || r.phase.Serving? ==> r.conn.Some?)
    && (r.phase.Cleared? || r.phase.ConnTicketed? || r.phase.Serving? ==> r.ticket <= Limit(c, r.public))
    && (r.phase.Serving? ==> r.conn.value <= ConnLimit(c, r.public))
  }

  ghost predicate ConnsOk(w: World, ip: Ip) {
    ConnOf(w.conns, ip) == |ConnTickets(w, ip)| && Fair(ConnTickets(w, ip))
  }

  ghost predicate Inv(c: Config, w: World)
    requires Sane(c)
  {
    && w.inFlight == |w.live| && Fair(GlobalTickets(w))
    && (forall ip :: ConnsOk(w, ip))
    && (forall id :: id in w.live ==> RequestOk(c, w.live[id]))
  }

  lemma ConnsStay(w: World, w': World)
    requires w'.conns == w.conns && forall ip :: ConnTickets(w', ip) == ConnTickets(w, ip)
    requires forall ip :: ConnsOk(w, ip)
    ensures forall ip :: ConnsOk(w', ip)
  {
    forall ip ensures ConnsOk(w', ip) {
      assert ConnsOk(w, ip);
    }
  }

  /** A step that touches neither counter: tickets stay as they are. */
  lemma QuietKeeps(c: Config, w: World, id: Id, r: Request)
    requires Sane(c) && Inv(c, w) && id in w.live && RequestOk(c, r)
    requires r.ticket == w.live[id].ticket && r.conn == w.live[id].conn && r.ip == w.live[id].ip
    ensures Inv(c, With(w, id, r))
  {
    var w' := With(w, id, r);
    QuietTickets(w, w', id, r);
    forall ip ensures ConnTickets(w', ip) == ConnTickets(w, ip) {
      QuietConns(w, w', id, r, ip);
    }
    ConnsStay(w, w');
  }

  lemma QuietTickets(w: World, w': World, id: Id, r: Request)
    requires id in w.live && w'.live == w.live[id := r] && r.ticket == w.live[id].ticket
    ensures GlobalTickets(w') == GlobalTickets(w) && |w'.live| == |w.live|
  {
    assert w'.live.Keys == w.live.Keys;
    assert |w'.live| == |w'.live.Keys|;
  }

  lemma QuietConns(w: World, w': World, id: Id, r: Request, ip: Ip)
    requires id in w.live && w'.live == w.live[id := r] && r.conn == w.live[id].conn && r.ip == w.live[id].ip
    ensures ConnTickets(w', ip) == ConnTickets(w, ip)
  {
  }

  lemma ArriveKeeps(c: Config, w: World, e: Event)
    requires Sane(c) && Inv(c, w) && Enabled(w, e) && e.Arrive?
    ensures Inv(c, Next(c, w, e))
  {
    var w' := Next(c, w, e);
    ArriveTickets(w, w', e.id, w'.live[e.id]);
    forall ip ensures ConnTickets(w', ip) == ConnTickets(w, ip) {
      ArriveUnconnected(w, w', e.id, w'.live[e.id], ip);
    }
    ConnsStay(w, w');
  }

  /** A new request takes the ticket after all live ones. */
  lemma ArriveTickets(w: World, w': World, id: Id, r: Request)
    requires id !in w.live && w'.live == w.live[id := r] && r.ticket == |w.live| + 1 && Fair(GlobalTickets(w))
    ensures Fair(GlobalTickets(w')) && |w'.live| == |w.live| + 1
  {
    assert GlobalTickets(w).Keys == w.live.Keys;
    assert |GlobalTickets(w)| == |GlobalTickets(w).Keys|;
    TakeKeeps(GlobalTickets(w), id);
    assert GlobalTickets(w') == GlobalTickets(w)[id := |GlobalTickets(w)| + 1];
  }

  lemma ArriveUnconnected(w: World, w': World, id: Id, r: Request, ip: Ip)
    requires id !in w.live && w'.live == w.live[id := r] && r.conn.None?
    ensures ConnTickets(w', ip) == ConnTickets(w, ip)
  {
  }

  lemma LeaveKeeps(c: Config, w: World, e: Event)
    requires Sane(c) && Inv(c, w) && Enabled(w, e) && e.Leave?
    ensures Inv(c, Next(c, w, e))
  {
    var w' := Next(c, w, e);
    assert w'.live.Keys == w.live.Keys - {e.id};
    assert |w'.live| == |w'.live.Keys|;
    FewerKeeps(GlobalTickets(w), GlobalTickets(w'));
    forall ip ensures ConnTickets(w', ip) == ConnTickets(w, ip) {}
    ConnsStay(w, w');
  }

  /** A step of request `id` that changes only the count of its own address. */
  lemma ConnStepKeeps(c: Config, w: World, w': World, id: Id)
    requires Sane(c) && Inv(c, w) && id in w.live && w'.live.Keys == w.live.Keys
    requires w'.inFlight == w.inFlight && (forall k :: k in w.live && k != id ==> w'.live[k] == w.live[k])
    requires forall ip :: ip != w.live[id].ip ==> ConnOf(w'.conns, ip) == ConnOf(w.conns, ip)
    requires w'.live[id].ip == w.live[id].ip && w'.live[id].ticket == w.live[id].ticket && RequestOk(c, w'.live[id])
    requires ConnsOk(w', w.live[id].ip)
    ensures Inv(c, w')
  {
    assert GlobalTickets(w') == GlobalTickets(w);
    assert |w'.live| == |w'.live.Keys|;
    forall ip ensures ConnsOk(w', ip) {
      if ip != w.live[id].ip {
        OtherAddress(w, w', id, ip);
      }
    }
  }

  lemma OtherAddress(w: World, w': World, id: Id, ip: Ip)
    requires id in w.live && w'.live.Keys == w.live.Keys
    requires forall k :: k in w.live && k != id ==> w'.live[k] == w.live[k]
    requires ip != w.live[id].ip == w'.live[id].ip && ConnOf(w'.conns, ip) == ConnOf(w.conns, ip) && ConnsOk(w, ip)
    ensures ConnsOk(w', ip)
  {
    assert ConnTickets(w', ip) == ConnTickets(w, ip);
  }

  lemma CountConnKeeps(c: Config, w: World, e: Event)
    requires Sane(c) && Inv(c, w) && Enabled(w, e) && e.CountConn? && !e.blocked
    ensures Inv(c, Next(c, w, e))
  {
    var w', ip := Next(c, w, e), w.live[e.id].ip;
    assert RequestOk(c, w.live[e.id]) && ConnsOk(w, ip);
    CountConnTickets(w, w', e.id, w'.live[e.id]);
    ConnStepKeeps(c, w, w', e.id);
  }

  /** A request takes the ticket after all live ones of its address. */
  lemma CountConnTickets(w: World, w': World, id: Id, r: Request)
    requires id in w.live && w.live[id].conn.None? && w'.live == w.live[id := r] && r.ip == w.live[id].ip
    requires ConnsOk(w, r.ip) && r.conn == Some(|ConnTickets(w, r.ip)| + 1)
    requires ConnOf(w'.conns, r.ip) == ConnOf(w.conns, r.ip) + 1
    ensures ConnsOk(w', r.ip)
  {
    TakeKeeps(ConnTickets(w, r.ip), id);
    assert ConnTickets(w', r.ip) == ConnTickets(w, r.ip)[id := |ConnTickets(w, r.ip)| + 1];
  }

  lemma LeaveConnKeeps(c: Config, w: World, e: Event)
    requires Sane(c) && Inv(c, w) && Enabled(w, e) && e.LeaveConn?
    ensures Inv(c, Next(c, w, e))
  {
    var w', ip := Next(c, w, e), w.live[e.id].ip;
    assert ConnsOk(w, ip);
    LeaveConnTickets(w, w', e.id, w'.live[e.id]);
    ConnStepKeeps(c, w, w', e.id);
  }

  lemma LeaveConnTickets(w: World, w': World, id: Id, r: Request)
    requires id in w.live && w.live[id].conn.Some?
    requires w'.live == w.live[id := r] && r.ip == w.live[id].ip && r.conn.None?
    requires ConnsOk(w, r.ip) && ConnOf(w'.conns, r.ip) == ConnOf(w.conns, r.ip) - 1
    ensures ConnsOk(w', r.ip)
  {
    FewerKeeps(ConnTickets(w, r.ip), ConnTickets(w', r.ip));
    assert ConnTickets(w', r.ip).Keys == ConnTickets(w, r.ip).Keys - {id};
    assert |ConnTickets(w', r.ip)| == |ConnTickets(w', r.ip).Keys|;
    assert |ConnTickets(w, r.ip)| == |ConnTickets(w, r.ip).Keys|;
  }

  lemma StepKeeps(c: Config, w: World, e: Event)
    requires Sane(c) && Inv(c, w)
    ensures Inv(c, Step(c, w, e))
  {
    if Enabled(w, e) {
      match e
      case Arrive(_, _, _) => ArriveKeeps(c, w, e);
      case CountConn(id, blocked) =>
        if blocked { QuietKeeps(c, w, id, w.live[id].(phase := Unwinding)); } else { CountConnKeeps(c, w, e); }
      case CheckLimit(id) => QuietKeeps(c, w, id, Next(c, w, e).live[id]);
      case CheckConn(id, _) => QuietKeeps(c, w, id, Next(c, w, e).live[id]);
      case Finish(id) => QuietKeeps(c, w, id, Next(c, w, e).live[id]);
      case LeaveConn(_) => LeaveConnKeeps(c, w, e);
      case Leave(_) => LeaveKeeps(c, w, e);
    }
  }

  lemma {:induction false} ReachableInv(c: Config, evs: seq<Event>)
    requires Sane(c)
    ensures Inv(c, Exec(c, evs))
  {
    if evs == [] {
      forall ip ensures ConnsOk(INIT, ip) {
        assert ConnTickets(INIT, ip) == map[];
      }
    } else {
      ReachableInv(c, evs[..|evs| - 1]);
      StepKeeps(c, Exec(c, evs[..|evs| - 1]), evs[|evs| - 1]);
    }
  }

  // ---------- what every run guarantees ----------

  /** Live requests that have counted themselves in at their address and not yet out. */
  ghost function Connected(w: World, ip: Ip): set<Id> {
    set id | id in w.live && w.live[id].ip == ip && w.live[id].conn.Some?
  }

  /** Every counter is the number of live requests holding it; with no request live, all are zero. */
  lemma CountersExact(c: Config, evs: seq<Event>, ip: Ip)
    requires Sane(c)
    ensures var w := Exec(c, evs);
            && w.inFlight == |w.live|
            && ConnOf(w.conns, ip) == |Connected(w, ip)|
            && (w.live == map[] ==> w.inFlight == 0 && ConnOf(w.conns, ip) == 0)
  {
    ReachableInv(c, evs);
    var w := Exec(c, evs);
    assert ConnsOk(w, ip);
    assert Connected(w, ip) == ConnTickets(w, ip).Keys;
    assert |ConnTickets(w, ip)| == |ConnTickets(w, ip).Keys|;
  }

  ghost function WithTicket(w: World, limit: nat): set<Id> {
    set id | id in w.live && w.live[id].ticket <= limit
  }

  /** For every limit, at most that many live requests hold a ticket within it. */
  lemma TicketBound(c: Config, evs: seq<Event>, limit: nat)
    requires Sane(c)
    ensures |WithTicket(Exec(c, evs), limit)| <= limit
  {
    ReachableInv(c, evs);
    var w := Exec(c, evs);
    assert WithTicket(w, limit) == UpTo(GlobalTickets(w), limit);
  }

  predicate PastLimit(r: Request) {
    r.phase.Cleared? || r.phase.ConnTicketed? || r.phase.Serving?
  }

  /** Live requests, or public ones only, that passed the global check. */
  ghost function Admitted(w: World, onlyPublic: bool): set<Id> {
    set id | id in w.live && PastLimit(w.live[id]) && (onlyPublic ==> w.live[id].public)
  }

  /** Requests from one address, or public ones only, whose handler is running. */
  ghost function Running(w: World, ip: Ip, onlyPublic: bool): set<Id> {
    set id | id in w.live && w.live[id].phase.Serving? && w.live[id].ip == ip && (onlyPublic ==> w.live[id].public)
  }

  /** Requests past the global check respect the whole limit, and the public ones among them the public share. */
  lemma AdmittedBound(c: Config, evs: seq<Event>, onlyPublic: bool)
    requires Sane(c)
    ensures |Admitted(Exec(c, evs), onlyPublic)| <=
              if onlyPublic then PublicLimit(c.maxConcurrent, c.reserved) else c.maxConcurrent
  {
    ReachableInv(c, evs);
    var w := Exec(c, evs);
    forall id | id in Admitted(w, onlyPublic) ensures id in UpTo(GlobalTickets(w), Limit(c, onlyPublic)) {
      assert RequestOk(c, w.live[id]);
    }
    SubsetCard(Admitted(w, onlyPublic), UpTo(GlobalTickets(w), Limit(c, onlyPublic)));
  }

  /** Running handlers respect the limit per address, and the public ones the smaller public cap. */
  lemma RunningBound(c: Config, evs: seq<Event>, ip: Ip, onlyPublic: bool)
    requires Sane(c)
    ensures |Running(Exec(c, evs), ip, onlyPublic)| <= ConnLimit(c, onlyPublic)
  {
    ReachableInv(c, evs);
    var w := Exec(c, evs);
    assert ConnsOk(w, ip);
    forall id | id in Running(w, ip, onlyPublic) ensures id in UpTo(ConnTickets(w, ip), ConnLimit(c, onlyPublic)) {
      assert RequestOk(c, w.live[id]);
    }
    SubsetCard(Running(w, ip, onlyPublic), UpTo(ConnTickets(w, ip), ConnLimit(c, onlyPublic)));
  }

  // ---------- the reserved share ----------

  /**
   Live requests that are not public, or that are public and on their way out with a ticket beyond the
   public share.
   */
  ghost function Others(c: Config, w: World): set<Id>
    requires Sane(c)
  {
    set id | id in w.live && (!w.live[id].public || w.live[id].ticket > Limit(c, true))
  }

  /** A credentialed or health request arriving in `w` passes the global check. */
  ghost predicate Passes(c: Config, w: World, id: Id, ip: Ip)
    requires Sane(c) && id !in w.live
  {
    Step(c, Step(c, w, Arrive(id, false, ip)), CheckLimit(id)).live[id].phase.Cleared?
  }

  /** The check looks at the raw count only, so a request being shed counts like any other. */
  lemma PassesIff(c: Config, evs: seq<Event>, id: Id, ip: Ip)
    requires Sane(c) && id !in Exec(c, evs).live
    ensures Passes(c, Exec(c, evs), id, ip) <==> |Exec(c, evs).live| < c.maxConcurrent
  {
    ReachableInv(c, evs);
  }

  /** The global check lets a request through exactly while fewer requests are live than its share of the limit. */
  lemma AdmittedIff(c: Config, evs: seq<Event>, id: Id, public: bool, ip: Ip)
    requires Sane(c) && id !in Exec(c, evs).live
    ensures var w := Step(c, Step(c, Exec(c, evs), Arrive(id, public, ip)), CheckLimit(id));
            && id in w.live
            && w.live[id].phase ==
               if |Exec(c, evs).live| < (if public then PublicLimit(c.maxConcurrent, c.reserved) else c.maxConcurrent)
               then Cleared else Unwinding
  {
    ReachableInv(c, evs);
  }

  /** A cleared request is served exactly if it is allowed and fewer of its address are counted than its cap. */
  lemma ServedIff(c: Config, evs: seq<Event>, id: Id, blocked: bool, methodAllowed: bool)
    requires Sane(c) && id in Exec(c, evs).live && Exec(c, evs).live[id].phase == Cleared
    ensures var v := Exec(c, evs);
            var w := Step(c, Step(c, v, CountConn(id, blocked)), CheckConn(id, methodAllowed));
            && id in w.live
            && w.live[id].phase ==
               if !blocked && |Connected(v, v.live[id].ip)| < CapOf(c, v.live[id].public) && methodAllowed
               then Serving else Unwinding
  {
    ReachableInv(c, evs);
    var v := Exec(c, evs);
    CountersExact(c, evs, v.live[id].ip);
  }

  /** The smaller of the configured caps that apply. */
  function CapOf(c: Config, public: bool): int {
    if public && c.publicConnPerIp > 0 then Min(c.publicConnPerIp, c.maxConnPerIp) else c.maxConnPerIp
  }

  /** The live requests are the admitted public ones, which fit the public share, and the others. */
  lemma LiveSplits(c: Config, w: World)
    requires Sane(c) && Fair(GlobalTickets(w))
    ensures |w.live| <= Limit(c, true) + |Others(c, w)|
  {
    var within := UpTo(GlobalTickets(w), Limit(c, true));
    var admitted := w.live.Keys - Others(c, w);
    SubsetCard(admitted, within);
    SubsetCard(w.live.Keys, admitted + Others(c, w));
    assert |w.live| == |w.live.Keys| && |admitted + Others(c, w)| <= |admitted| + |Others(c, w)|;
  }

  /**
   The reserve: as long as fewer than the reserved number of requests are anything but admitted public
   ones, a credentialed request passes, however many public requests are live.
   */
  lemma ReserveHolds(c: Config, evs: seq<Event>, id: Id, ip: Ip)
    requires Sane(c) && id !in Exec(c, evs).live
    requires |Others(c, Exec(c, evs))| < c.maxConcurrent - PublicLimit(c.maxConcurrent, c.reserved)
    ensures Passes(c, Exec(c, evs), id, ip)
  {
    ReachableInv(c, evs);
    LiveSplits(c, Exec(c, evs));
    PassesIff(c, evs, id, ip);
  }

  lemma {:induction false} PublicBurst(c: Config, n: nat) returns (evs: seq<Event>)
    requires Sane(c)
    ensures var w := Exec(c, evs);
            |w.live| == n && forall id :: id in w.live ==> id < n && w.live[id].public && w.live[id].phase.Ticketed?
  {
    evs := [];
    if n > 0 {
      var past := PublicBurst(c, n - 1);
      evs := past + [Arrive(n - 1, true, "")];
      assert evs[..|evs| - 1] == past;
      var w := Exec(c, past);
      assert Exec(c, evs).live.Keys == w.live.Keys + {n - 1};
      assert |w.live.Keys| == n - 1 && |Exec(c, evs).live.Keys| == n;
    }
  }

  /**
   Whatever the reserve, a burst of public requests that have all counted themselves in but are not yet
   shed keeps a credentialed request out although no other credentialed request is live.
   */
  lemma BurstDefeatsReserve(c: Config)
    requires Sane(c)
    ensures exists evs, id: Id :: id !in Exec(c, evs).live && !Passes(c, Exec(c, evs), id, "") &&
              forall k :: k in Exec(c, evs).live ==> Exec(c, evs).live[k].public
  {
    var evs := PublicBurst(c, c.maxConcurrent);
    var id: Id := c.maxConcurrent;
    PassesIff(c, evs, id, "");
    assert id !in Exec(c, evs).live && !Passes(c, Exec(c, evs), id, "");
  }
}
