/** The refresh coordinator of `client.js`: the module-level `isRefreshing` flag and
    `refreshQueue`, and the life cycle of every request that passes through the response
    interceptor. JavaScript runs one callback at a time, so the system is a state machine whose
    events are the points where control returns to the event loop: a request is issued, a
    network reply arrives, the refresh call replies, or a resolved waiter (or the refresh
    initiator) resumes and replays its request. Local session changes, storage events from
    other tabs and bus (un)subscriptions are events too. Everything between two events runs
    without interruption, which is what makes the flag a mutual exclusion. Bus listeners are
    taken to leave the bus alone while they run (see `AuthBus.EmitDeliversToChannel`); a
    delivery is recorded with the listeners it reaches. */
module Coordinator {
  import opened Base
  import opened Json
  import opened AuthBus
  import opened AuthStorage
  import opened ErrorMapper
  import opened ApiClient

  type ReqId = nat

  const TimeoutKey: string := "errors.timeout"
  const SessionExpiredKey: string := "errors.sessionExpired"

  /** What the network answers a call with: a 2xx response, or an axios error. */
  datatype NetResult = Success(response: Response) | Failure(error: ApiError)

  /** Why a request's promise rejects: a normalised error (`{...mapped, originalError}` when
      the original error is kept), or the `Missing refresh token` error that
      `refreshAccessToken` throws before its `try`. */
  datatype Rejection = Normalized(error: Mapped, original: Option<ApiError>) | MissingRefreshToken

  datatype Outcome = Fulfilled(value: Unwrapped) | Rejected(reason: Rejection)

  /** Where a request is: on the wire; waiting in `refreshQueue`; awaiting the refresh it
      started; resumed by a successful refresh and about to be replayed; or settled. */
  datatype Phase =
    | InFlight(config: Config)
    | Queued(config: Config)
    | Refreshing(config: Config)
    | Retrying(config: Config)
    | Done(outcome: Outcome)

  /** A request and the number of times it has been replayed. */
  datatype Req = Req(phase: Phase, replays: nat)

  /** How the queue is settled: `resolveQueue(token)` or `rejectQueue(error)`. */
  datatype Settlement = Resolve(token: Json) | Reject(error: Mapped)

  /** What the outside world observes. */
  datatype Effect =
    | Send(id: ReqId, config: Config)
    | RefreshCall(initiator: ReqId, refreshToken: Json)
    | Toast(key: Json, message: JsValue)
    | Delivered(channel: Channel, payload: JsValue, listeners: seq<ListenerId>)
    | Notified(id: ReqId, how: Settlement)

  /** The client's state: the session store, the bus, `isRefreshing`, `refreshQueue` (the
      ids of the waiting requests), the refresh calls awaiting their reply (by initiator),
      every request issued so far, and the effects so far. */
  datatype Sys = Sys(store: Store, bus: Bus, refreshing: bool, queue: seq<ReqId>,
                     pending: seq<ReqId>, reqs: map<ReqId, Req>, log: seq<Effect>)

  function Start(store: Store): Sys {
    Sys(store, AuthBus.Initial, false, [], [], map[], [])
  }

  datatype Event =
    | Issue(id: ReqId, config: Config)
    | Reply(id: ReqId, result: NetResult)
    | RefreshReply(result: NetResult)
    | Resume(id: ReqId)
    | OtherTab(key: Option<string>, newValue: Option<string>)
    | SaveSession(session: Json)
    | SaveUser(user: Json)
    | ClearSession
    | Logout
    | Listen(channel: Channel, listener: ListenerId)
    | Unlisten(channel: Channel, listener: ListenerId)

  /** The events that can happen in a state: a new id is issued, only a request on the wire
      gets a reply, only an outstanding refresh call replies, only a resumed request is
      replayed. */
  predicate Enabled(s: Sys, e: Event) {
    match e
    case Issue(id, _) => id !in s.reqs
    case Reply(id, _) => id in s.reqs && s.reqs[id].phase.InFlight?
    case RefreshReply(_) => |s.pending| > 0
    case Resume(id) => id in s.reqs && s.reqs[id].phase.Retrying?
    case _ => true
  }

  // ---------------------------------------------------------------- bus deliveries

  function Delivery(bus: Bus, n: Notice): Effect {
    match n
    case TokensUpdated(t) => Delivered(TokensChannel, Some(t), Members(bus.tokens))
    case UserUpdated(u) => Delivered(UserChannel, Some(u), Members(bus.user))
  }

  function Deliveries(bus: Bus, notices: seq<Notice>): (r: seq<Effect>)
    ensures |r| == |notices|
    ensures forall k :: 0 <= k < |notices| ==> r[k] == Delivery(bus, notices[k])
  {
    seq(|notices|, k requires 0 <= k < |notices| => Delivery(bus, notices[k]))
  }

  /** `authBus.emitLogout()`: no payload. */
  function LogoutDelivery(bus: Bus): Effect {
    Delivered(LogoutChannel, None, Members(bus.logout))
  }

  /** A recorded delivery is what `AuthBus.Emit` does on the bus at that moment: with
      callbacks that leave the bus alone, the notice's channel is walked to the end, every
      recorded listener is called once, in order, with the notice's value, and the bus is
      unchanged. */
  lemma DeliveryIsEmission(bus: Bus, n: Notice, react: ListenerId -> seq<BusAction>, throws: ListenerId -> bool)
    requires Quiet(react)
    ensures var d := Delivery(bus, n);
      var r := Emit(bus, d.channel, d.payload, react, throws, |bus.Slots(d.channel)|);
      && d.channel == (if n.TokensUpdated? then TokensChannel else UserChannel)
      && d.payload == Some(if n.TokensUpdated? then n.tokens else n.user)
      && r.bus == bus && r.finished
      && |r.calls| == |d.listeners|
      && forall k :: 0 <= k < |r.calls| ==> r.calls[k] == Invocation(d.listeners[k], d.payload, throws(d.listeners[k]))
  {
    var d := Delivery(bus, n);
    EmitDeliversToChannel(bus, d.channel, d.payload, react, throws);
  }

  /** The same for the logout delivery, which carries no payload. */
  lemma LogoutDeliveryIsEmission(bus: Bus, react: ListenerId -> seq<BusAction>, throws: ListenerId -> bool)
    requires Quiet(react)
    ensures var d := LogoutDelivery(bus);
      var r := Emit(bus, LogoutChannel, None, react, throws, |bus.logout|);
      && d.channel == LogoutChannel && d.payload == None
      && r.bus == bus && r.finished
      && |r.calls| == |d.listeners|
      && forall k :: 0 <= k < |r.calls| ==> r.calls[k] == Invocation(d.listeners[k], None, throws(d.listeners[k]))
  {
    EmitDeliversToChannel(bus, LogoutChannel, None, react, throws);
  }

  // ---------------------------------------------------------------- the queue

  /** What settling the queue does to one waiter. Only a waiting request is affected. */
  function Settle(r: Req, how: Settlement): Req {
    if !r.phase.Queued? then r
    else match how
      case Resolve(token) => r.(phase := Retrying(RetryConfig(r.phase.config, token)))
      case Reject(m) => r.(phase := Done(Rejected(Normalized(m, None))))
  }

  /** `refreshQueue.forEach(...)`: settles every queued request, front to back. */
  function SettleAll(reqs: map<ReqId, Req>, queue: seq<ReqId>, how: Settlement): (r: map<ReqId, Req>)
    ensures r.Keys == reqs.Keys
    ensures forall id :: id in reqs ==> r[id] == (if id in queue then Settle(reqs[id], how) else reqs[id])
    decreases |queue|
  {
    if |queue| == 0 then reqs
    else
      var q := queue[0];
      var reqs1 := if q in reqs then reqs[q := Settle(reqs[q], how)] else reqs;
      var r := SettleAll(reqs1, queue[1..], how);
      assert forall id :: id in queue <==> id == q || id in queue[1..];
      r
  }

  /** One notification per queue entry, in queue order. */
  function Notifications(queue: seq<ReqId>, how: Settlement): (r: seq<Effect>)
    ensures |r| == |queue|
    ensures forall k :: 0 <= k < |queue| ==> r[k] == Notified(queue[k], how)
  {
    seq(|queue|, k requires 0 <= k < |queue| => Notified(queue[k], how))
  }

  // ---------------------------------------------------------------- the steps

  /** Sends a request through the request interceptor. */
  function Dispatch(c: Codec, s: Sys, id: ReqId, cfg: Config, replays: nat): Sys {
    var p := RequestInterceptor(c, s.store, cfg);
    s.(store := p.store, reqs := s.reqs[id := Req(InFlight(p.config), replays)],
       log := s.log + [Send(id, p.config)])
  }

  function Finish(s: Sys, id: ReqId, o: Outcome): Sys
    requires id in s.reqs
  {
    s.(reqs := s.reqs[id := s.reqs[id].(phase := Done(o))])
  }

  /** The timeout toast shown for a call aborted by its timeout (code `ECONNABORTED`). */
  function TimeoutToast(e: ApiError): seq<Effect> {
    if e.code == Some("ECONNABORTED") then [Toast(JStr(TimeoutKey), None)] else []
  }

  /** Starting a refresh: the request is marked as retried, the flag is set, and
      `refreshAccessToken` runs up to the refresh call. The token is read again; when it is missing the function throws before
      its `try`, so the `finally` that clears the flag never runs. */
  function BeginRefresh(c: Codec, s: Sys, id: ReqId, cfg: Config): Sys
    requires id in s.reqs
  {
    var rt := GetRefreshToken(c, s.store);
    if !Truthy(rt.value) then
      Finish(s.(store := rt.store, refreshing := true), id, Rejected(MissingRefreshToken))
    else
      s.(store := rt.store, refreshing := true, pending := s.pending + [id],
         reqs := s.reqs[id := s.reqs[id].(phase := Refreshing(cfg))],
         log := s.log + [RefreshCall(id, rt.value)])
  }

  /** The error interceptor for a request on the wire. */
  function OnFailure(c: Codec, s: Sys, id: ReqId, e: ApiError): Sys
    requires id in s.reqs && s.reqs[id].phase.InFlight?
  {
    var cfg := s.reqs[id].phase.config;
    var s1 := s.(log := s.log + TimeoutToast(e));
    match RouteOf(e, cfg)
    case NoResponse =>
      Finish(s1.(log := s1.log + [Toast(JStr(NetworkKey), None)]), id,
             Rejected(Normalized(MapApiError(e), Some(e))))
    case Terminal =>
      var m := MapApiError(e);
      var toast := if ToastOnTerminal(cfg, m) then [Toast(m.messageKey, m.message)] else [];
      Finish(s1.(log := s1.log + toast), id, Rejected(Normalized(m, Some(e))))
    case RefreshPath =>
      var rt := GetRefreshToken(c, s1.store);
      if !Truthy(rt.value) then
        var w := Clear(c, rt.store);
        Finish(s1.(store := w.store, log := s1.log + Deliveries(s1.bus, w.notices) + [LogoutDelivery(s1.bus)]),
               id, Rejected(Normalized(MapApiError(e), Some(e))))
      else if s1.refreshing then
        s1.(store := rt.store, queue := s1.queue + [id],
            reqs := s1.reqs[id := s1.reqs[id].(phase := Queued(cfg))])
      else
        BeginRefresh(c, s1.(store := rt.store), id, cfg.(retry := true))
  }

  /** The reply to the refresh call: the rest of `refreshAccessToken` (its `finally` clears
      the flag), then the initiator's `catch` or its resumption. */
  function OnRefreshReply(c: Codec, s: Sys, result: NetResult): Sys
    requires |s.pending| > 0
  {
    var id := s.pending[0];
    var s0 := s.(pending := s.pending[1..], refreshing := false, queue := []);
    var ok := if result.Success? then RefreshedTokens(result.response.data) else None;
    if ok.Some? then
      var access := ok.value.1;
      var w := SetTokens(c, s.store, ok.value.0);
      var how := Resolve(access);
      var reqs1 := SettleAll(s.reqs, s.queue, how);
      var reqs2 := if id in reqs1 && reqs1[id].phase.Refreshing?
                   then reqs1[id := reqs1[id].(phase := Retrying(RetryConfig(reqs1[id].phase.config, access)))]
                   else reqs1;
      s0.(store := w.store, reqs := reqs2,
          log := s.log + Deliveries(s.bus, w.notices) + Notifications(s.queue, how))
    else
      var m := MapApiError(if result.Success? then InvalidRefreshResponse else result.error);
      var how := Reject(m);
      var w := Clear(c, s.store);
      var reqs1 := SettleAll(s.reqs, s.queue, how);
      var reqs2 := if id in reqs1 && reqs1[id].phase.Refreshing?
                   then reqs1[id := reqs1[id].(phase := Done(Rejected(Normalized(m, None))))]
                   else reqs1;
      s0.(store := w.store, reqs := reqs2,
          log := s.log + Notifications(s.queue, how) + Deliveries(s.bus, w.notices)
                 + [LogoutDelivery(s.bus), Toast(JStr(SessionExpiredKey), None)])
  }

  /** Writes to the session store made by the application, with their bus deliveries. */
  function Local(s: Sys, w: Write): Sys {
    s.(store := w.store, log := s.log + Deliveries(s.bus, w.notices))
  }

  function Step(c: Codec, s: Sys, e: Event): Sys
    requires Enabled(s, e)
  {
    match e
    case Issue(id, cfg) => Dispatch(c, s, id, cfg, 0)
    case Reply(id, Success(resp)) => Finish(s, id, Fulfilled(Unwrap(resp)))
    case Reply(id, Failure(err)) => OnFailure(c, s, id, err)
    case RefreshReply(result) => OnRefreshReply(c, s, result)
    case Resume(id) => Dispatch(c, s, id, s.reqs[id].phase.config, s.reqs[id].replays + 1)
    case OtherTab(key, newValue) => s.(store := ExternalChange(c, s.store, key, newValue))
    case SaveSession(session) => Local(s, SetSession(c, s.store, session))
    case SaveUser(user) => Local(s, SetUser(c, s.store, user))
    case ClearSession => Local(s, Clear(c, s.store))
    case Logout => s.(log := s.log + [LogoutDelivery(s.bus)])
    case Listen(ch, l) => s.(bus := Subscribe(s.bus, ch, l).0)
    case Unlisten(ch, l) => s.(bus := Unsubscribe(s.bus, Unsubscriber(ch, l)).0)
  }

  /** Runs a sequence of events, ignoring those not enabled when they come. */
  function Run(c: Codec, s: Sys, events: seq<Event>): Sys
    decreases |events|
  {
    if |events| == 0 then s
    else Run(c, if Enabled(s, events[0]) then Step(c, s, events[0]) else s, events[1..])
  }

  // ---------------------------------------------------------------- invariants

  predicate Distinct(q: seq<ReqId>) {
    forall i, j :: 0 <= i < j < |q| ==> q[i] != q[j]
  }

  /** What every request record keeps: it is replayed at most once, and only after a
      successful refresh; a request waiting on a refresh has not been replayed; a replay
      carries `_retry`, so its own 401 can never wait on a refresh again; and the
      `Missing refresh token` rejection never happens. */
  predicate ReqOk(r: Req) {
    && r.replays <= 1
    && (r.phase.Queued? ==> !r.phase.config.retry && r.replays == 0)
    && (r.phase.Refreshing? ==> r.phase.config.retry && r.replays == 0)
    && (r.phase.Retrying? ==> r.phase.config.retry && HasAuthorization(r.phase.config) && r.replays == 0)
    && (r.phase.InFlight? && r.replays == 1 ==> r.phase.config.retry)
    && r.phase != Done(Rejected(MissingRefreshToken))
  }

  /** The coordinator's invariant: at most one refresh call is outstanding, and the flag is
      set exactly while one is; its initiator is the one request awaiting a refresh; the queue
      holds each waiting request once and nothing else, and is empty unless a refresh is
      outstanding. */
  predicate Inv(s: Sys) {
    && |s.pending| <= 1
    && (s.refreshing <==> |s.pending| == 1)
    && (forall id :: id in s.pending ==> id in s.reqs && s.reqs[id].phase.Refreshing?)
    && (forall id :: id in s.reqs && s.reqs[id].phase.Refreshing? ==> id in s.pending)
    && Distinct(s.queue)
    && (forall id :: id in s.queue ==> id in s.reqs && s.reqs[id].phase.Queued?)
    && (forall id :: id in s.reqs && s.reqs[id].phase.Queued? ==> id in s.queue)
    && (|s.queue| > 0 ==> s.refreshing)
    && (forall id :: id in s.reqs ==> ReqOk(s.reqs[id]))
  }

  lemma StartInv(store: Store)
    ensures Inv(Start(store))
  {
  }

  lemma IssueKeepsInv(c: Codec, s: Sys, id: ReqId, cfg: Config)
    requires Inv(s) && id !in s.reqs
    ensures Inv(Step(c, s, Issue(id, cfg)))
  {
  }

  lemma ResumeKeepsInv(c: Codec, s: Sys, id: ReqId)
    requires Inv(s) && Enabled(s, Resume(id))
    ensures Inv(Step(c, s, Resume(id)))
  {
    var cfg := s.reqs[id].phase.config;
    var p := RequestInterceptor(c, s.store, cfg);
    assert p.config.retry == cfg.retry;
  }

  /** The invariant only concerns the flag, the queue, the outstanding refresh and the
      requests. */
  lemma InvFrame(s: Sys, store: Store, log: seq<Effect>)
    ensures Inv(s.(store := store, log := log)) == Inv(s)
  {
  }

  lemma FinishKeepsInv(s: Sys, id: ReqId, o: Outcome)
    requires Inv(s) && id in s.reqs && s.reqs[id].phase.InFlight? && o != Rejected(MissingRefreshToken)
    ensures Inv(Finish(s, id, o))
  {
    var t := Finish(s, id, o);
    assert forall q :: q in t.reqs && t.reqs[q].phase.Queued? ==> q != id && t.reqs[q] == s.reqs[q];
    assert forall q :: q in t.reqs && t.reqs[q].phase.Refreshing? ==> q != id && t.reqs[q] == s.reqs[q];
  }

  lemma EnqueueKeepsInv(s: Sys, id: ReqId, store: Store)
    requires Inv(s) && s.refreshing && id in s.reqs && s.reqs[id].phase.InFlight?
    requires !s.reqs[id].phase.config.retry
    ensures var t := s.(store := store, queue := s.queue + [id],
                        reqs := s.reqs[id := s.reqs[id].(phase := Queued(s.reqs[id].phase.config))]);
      Inv(t)
  {
    var t := s.(store := store, queue := s.queue + [id],
                reqs := s.reqs[id := s.reqs[id].(phase := Queued(s.reqs[id].phase.config))]);
    assert id !in s.queue;
    assert forall q :: q in t.queue <==> q in s.queue || q == id;
  }

  lemma BeginRefreshKeepsInv(c: Codec, s: Sys, id: ReqId)
    requires Inv(s) && !s.refreshing && id in s.reqs && s.reqs[id].phase.InFlight?
    requires !s.reqs[id].phase.config.retry
    requires Truthy(GetRefreshToken(c, s.store).value)
    ensures Inv(BeginRefresh(c, s, id, s.reqs[id].phase.config.(retry := true)))
  {
    var t := BeginRefresh(c, s, id, s.reqs[id].phase.config.(retry := true));
    assert t.pending == [id];
  }

  lemma ReplyKeepsInv(c: Codec, s: Sys, id: ReqId, result: NetResult)
    requires Inv(s) && Enabled(s, Reply(id, result))
    ensures Inv(Step(c, s, Reply(id, result)))
  {
    if result.Success? {
      FinishKeepsInv(s, id, Fulfilled(Unwrap(result.response)));
    } else {
      var e := result.error;
      var cfg := s.reqs[id].phase.config;
      var s1 := s.(log := s.log + TimeoutToast(e));
      InvFrame(s, s.store, s1.log);
      match RouteOf(e, cfg)
      case NoResponse =>
        InvFrame(s, s.store, s1.log + [Toast(JStr(NetworkKey), None)]);
        FinishKeepsInv(s1.(log := s1.log + [Toast(JStr(NetworkKey), None)]), id,
                       Rejected(Normalized(MapApiError(e), Some(e))));
      case Terminal =>
        var m := MapApiError(e);
        var toast := if ToastOnTerminal(cfg, m) then [Toast(m.messageKey, m.message)] else [];
        InvFrame(s, s.store, s1.log + toast);
        FinishKeepsInv(s1.(log := s1.log + toast), id, Rejected(Normalized(m, Some(e))));
      case RefreshPath =>
        var rt := GetRefreshToken(c, s1.store);
        if !Truthy(rt.value) {
          var w := Clear(c, rt.store);
          var log := s1.log + Deliveries(s1.bus, w.notices) + [LogoutDelivery(s1.bus)];
          InvFrame(s, w.store, log);
          FinishKeepsInv(s1.(store := w.store, log := log), id, Rejected(Normalized(MapApiError(e), Some(e))));
        } else if s1.refreshing {
          EnqueueKeepsInv(s1, id, rt.store);
        } else {
          InvFrame(s, rt.store, s1.log);
          RefreshTokenReadStable(c, s1.store);
          BeginRefreshKeepsInv(c, s1.(store := rt.store), id);
        }
    }
  }

  /** Settling the queue leaves no request waiting and keeps every record's invariant. */
  lemma SettleAllKeepsRecords(s: Sys, how: Settlement)
    requires Inv(s)
    ensures var r := SettleAll(s.reqs, s.queue, how);
      && (forall id :: id in r ==> !r[id].phase.Queued? && ReqOk(r[id]))
      && (forall id :: id in r ==> (r[id].phase.Refreshing? <==> s.reqs[id].phase.Refreshing?))
      && (forall id :: id in r && s.reqs[id].phase.Refreshing? ==> r[id] == s.reqs[id])
  {
  }

  /** Closing a refresh: the queue settled, the initiator moved on to `ph`, the flag cleared. */
  lemma CloseRefreshKeepsInv(s: Sys, how: Settlement, ph: Phase, store: Store, log: seq<Effect>)
    requires Inv(s) && |s.pending| > 0
    requires ReqOk(Req(ph, 0)) && !ph.Queued? && !ph.Refreshing?
    ensures var id := s.pending[0];
      var reqs1 := SettleAll(s.reqs, s.queue, how);
      Inv(Sys(store, s.bus, false, [], [], reqs1[id := reqs1[id].(phase := ph)], log))
  {
    SettleAllKeepsRecords(s, how);
  }

  lemma RefreshReplyKeepsInv(c: Codec, s: Sys, result: NetResult)
    requires Inv(s) && Enabled(s, RefreshReply(result))
    ensures Inv(Step(c, s, RefreshReply(result)))
  {
    var id := s.pending[0];
    var cfg := s.reqs[id].phase.config;
    var ok := if result.Success? then RefreshedTokens(result.response.data) else None;
    var t := Step(c, s, RefreshReply(result));
    assert s.pending[1..] == [];
    if ok.Some? {
      var how := Resolve(ok.value.1);
      SettleAllKeepsRecords(s, how);
      CloseRefreshKeepsInv(s, how, Retrying(RetryConfig(cfg, ok.value.1)), t.store, t.log);
    } else {
      var how := Reject(MapApiError(if result.Success? then InvalidRefreshResponse else result.error));
      SettleAllKeepsRecords(s, how);
      CloseRefreshKeepsInv(s, how, Done(Rejected(Normalized(how.error, None))), t.store, t.log);
    }
  }

  lemma StepKeepsInv(c: Codec, s: Sys, e: Event)
    requires Inv(s) && Enabled(s, e)
    ensures Inv(Step(c, s, e))
  {
    match e
    case Issue(id, cfg) => IssueKeepsInv(c, s, id, cfg);
    case Reply(id, result) => ReplyKeepsInv(c, s, id, result);
    case RefreshReply(result) => RefreshReplyKeepsInv(c, s, result);
    case Resume(id) => ResumeKeepsInv(c, s, id);
    case _ =>
  }

  /** Every state reached from a state that keeps the invariant keeps it. */
  lemma {:induction false} RunKeepsInv(c: Codec, s: Sys, events: seq<Event>)
    requires Inv(s)
    ensures Inv(Run(c, s, events))
    decreases |events|
  {
    if |events| > 0 {
      var s1 := if Enabled(s, events[0]) then Step(c, s, events[0]) else s;
      if Enabled(s, events[0]) {
        StepKeepsInv(c, s, events[0]);
      }
      RunKeepsInv(c, s1, events[1..]);
    }
  }

  // ---------------------------------------------------------------- properties

  /** In every reachable state at most one refresh call is outstanding, no request has been
      replayed more than once, the queue has no duplicates and is empty while no refresh is
      outstanding, and no request was rejected with `Missing refresh token`. */
  lemma Reachable(c: Codec, store: Store, events: seq<Event>)
    ensures var s := Run(c, Start(store), events);
      && |s.pending| <= 1
      && (s.refreshing <==> |s.pending| == 1)
      && Distinct(s.queue) && (|s.queue| > 0 ==> s.refreshing)
      && (forall id :: id in s.reqs ==> s.reqs[id].replays <= 1)
      && (forall id :: id in s.reqs ==> s.reqs[id].phase != Done(Rejected(MissingRefreshToken)))
  {
    StartInv(store);
    RunKeepsInv(c, Start(store), events);
  }

  /** The refresh-token check of the error interceptor covers the second read inside
      `refreshAccessToken`: nothing runs between the two reads, so a request that passed the
      check starts the refresh and the `Missing refresh token` throw cannot happen. */
  lemma GuardCoversRefresh(c: Codec, s: Sys, id: ReqId, cfg: Config)
    requires id in s.reqs
    requires Truthy(GetRefreshToken(c, s.store).value)
    ensures var rt := GetRefreshToken(c, s.store);
      var t := BeginRefresh(c, s.(store := rt.store), id, cfg);
      && t.reqs[id].phase == Refreshing(cfg)
      && t.pending == s.pending + [id] && t.refreshing
      && t.log == s.log + [RefreshCall(id, rt.value)]
  {
    RefreshTokenReadStable(c, s.store);
  }

  /** A 401 on the refresh path: without a refresh token the session is cleared, logout is
      emitted and the request rejects with its mapped error; while a refresh is outstanding the
      request joins the queue and no second refresh call is made; otherwise it becomes the
      initiator of the one refresh call, marked as retried. */
  lemma RefreshPathStep(c: Codec, s: Sys, id: ReqId, e: ApiError)
    requires Inv(s) && Enabled(s, Reply(id, Failure(e)))
    requires RouteOf(e, s.reqs[id].phase.config) == RefreshPath
    ensures var cfg := s.reqs[id].phase.config;
      var rt := GetRefreshToken(c, s.store);
      var t := Step(c, s, Reply(id, Failure(e)));
      && (!Truthy(rt.value) ==>
            && t.store == Clear(c, rt.store).store
            && t.reqs[id].phase == Done(Rejected(Normalized(MapApiError(e), Some(e))))
            && t.log == s.log + TimeoutToast(e) + [LogoutDelivery(s.bus)]
            && t.pending == s.pending && t.queue == s.queue && t.refreshing == s.refreshing)
      && (Truthy(rt.value) && s.refreshing ==>
            && t.queue == s.queue + [id] && t.reqs[id].phase == Queued(cfg)
            && t.pending == s.pending && t.refreshing
            && t.log == s.log + TimeoutToast(e))
      && (Truthy(rt.value) && !s.refreshing ==>
            && t.pending == [id] && t.refreshing && t.queue == []
            && t.reqs[id].phase == Refreshing(cfg.(retry := true))
            && t.log == s.log + TimeoutToast(e) + [RefreshCall(id, rt.value)])
  {
    var rt := GetRefreshToken(c, s.store);
    var cfg := s.reqs[id].phase.config;
    if !Truthy(rt.value) {
      assert Clear(c, rt.store).notices == [];
    } else if !s.refreshing {
      GuardCoversRefresh(c, s.(log := s.log + TimeoutToast(e)), id, cfg.(retry := true));
    }
  }

  /** A failure that does not take the refresh path rejects with the mapped error. A call
      without a response always toasts the network error (after the timeout toast when it
      timed out), `suppressToast` notwithstanding. A call with a response toasts (besides a
      timeout toast) exactly when it is not suppressed and its status is 0 or at least 500. */
  lemma TerminalFailure(c: Codec, s: Sys, id: ReqId, e: ApiError)
    requires Enabled(s, Reply(id, Failure(e)))
    requires RouteOf(e, s.reqs[id].phase.config) != RefreshPath
    ensures var cfg := s.reqs[id].phase.config;
      var t := Step(c, s, Reply(id, Failure(e)));
      && t.reqs[id].phase == Done(Rejected(Normalized(MapApiError(e), Some(e))))
      && (e.response.None? ==> t.log == s.log + TimeoutToast(e) + [Toast(JStr(NetworkKey), None)])
      && (e.response.Some? ==>
            var status := e.response.value.status;
            var shown := !cfg.suppressToast && (status == 0 || status >= 500);
            t.log == s.log + TimeoutToast(e)
                     + (if shown then [Toast(MapApiError(e).messageKey, MapApiError(e).message)] else []))
      && t.store == s.store && t.queue == s.queue && t.pending == s.pending && t.refreshing == s.refreshing
  {
  }

  /** The reply to the refresh call settles everything waiting on it. On success the new
      tokens are stored (and announced) before every waiter is resumed with the new access
      token, in queue order, and the initiator is resumed too; on failure every waiter and the
      initiator reject with the same mapped error, then the session is cleared, logout is
      emitted and the session-expired toast shown. Either way the flag is cleared, the queue
      emptied, and no other request changes. */
  lemma RefreshReplySettles(c: Codec, s: Sys, result: NetResult)
    requires Inv(s) && Enabled(s, RefreshReply(result))
    ensures var id := s.pending[0];
      var t := Step(c, s, RefreshReply(result));
      var ok := if result.Success? then RefreshedTokens(result.response.data) else None;
      && !t.refreshing && t.pending == [] && t.queue == []
      && t.reqs.Keys == s.reqs.Keys
      && (forall q :: q in s.reqs && q !in s.queue && q != id ==> t.reqs[q] == s.reqs[q])
      && (ok.Some? ==>
            var access := ok.value.1;
            var w := SetTokens(c, s.store, ok.value.0);
            && (forall q :: q in s.queue ==>
                  t.reqs[q] == Req(Retrying(RetryConfig(s.reqs[q].phase.config, access)), 0))
            && t.reqs[id] == Req(Retrying(RetryConfig(s.reqs[id].phase.config, access)), 0)
            && t.store == w.store
            && t.log == s.log + Deliveries(s.bus, w.notices) + Notifications(s.queue, Resolve(access)))
      && (ok.None? ==>
            var m := MapApiError(if result.Success? then InvalidRefreshResponse else result.error);
            && (forall q :: q in s.queue ==> t.reqs[q] == Req(Done(Rejected(Normalized(m, None))), 0))
            && t.reqs[id] == Req(Done(Rejected(Normalized(m, None))), 0)
            && t.store == Clear(c, s.store).store
            && t.log == s.log + Notifications(s.queue, Reject(m))
                        + [LogoutDelivery(s.bus), Toast(JStr(SessionExpiredKey), None)])
  {
    RefreshReplyKeepsOthers(c, s, result);
    RefreshReplyResolves(c, s, result);
    RefreshReplyRejects(c, s, result);
  }

  lemma RefreshReplyKeepsOthers(c: Codec, s: Sys, result: NetResult)
    requires Inv(s) && |s.pending| > 0
    ensures var id := s.pending[0];
      var t := OnRefreshReply(c, s, result);
      && !t.refreshing && t.pending == [] && t.queue == []
      && t.reqs.Keys == s.reqs.Keys
      && (forall q :: q in s.reqs && q !in s.queue && q != id ==> t.reqs[q] == s.reqs[q])
  {
  }

  lemma RefreshReplyResolves(c: Codec, s: Sys, result: NetResult)
    requires Inv(s) && |s.pending| > 0
    ensures var id := s.pending[0];
      var t := OnRefreshReply(c, s, result);
      var ok := if result.Success? then RefreshedTokens(result.response.data) else None;
      ok.Some? ==>
        var access := ok.value.1;
        var w := SetTokens(c, s.store, ok.value.0);
        && (forall q :: q in s.queue ==>
              t.reqs[q] == Req(Retrying(RetryConfig(s.reqs[q].phase.config, access)), 0))
        && t.reqs[id] == Req(Retrying(RetryConfig(s.reqs[id].phase.config, access)), 0)
        && t.store == w.store
        && t.log == s.log + Deliveries(s.bus, w.notices) + Notifications(s.queue, Resolve(access))
  {
    assert s.pending[0] !in s.queue;
  }

  lemma RefreshReplyRejects(c: Codec, s: Sys, result: NetResult)
    requires Inv(s) && |s.pending| > 0
    ensures var id := s.pending[0];
      var t := OnRefreshReply(c, s, result);
      var ok := if result.Success? then RefreshedTokens(result.response.data) else None;
      ok.None? ==>
        var m := MapApiError(if result.Success? then InvalidRefreshResponse else result.error);
        && (forall q :: q in s.queue ==> t.reqs[q] == Req(Done(Rejected(Normalized(m, None))), 0))
        && t.reqs[id] == Req(Done(Rejected(Normalized(m, None))), 0)
        && t.store == Clear(c, s.store).store
        && t.log == s.log + Notifications(s.queue, Reject(m))
                    + [LogoutDelivery(s.bus), Toast(JStr(SessionExpiredKey), None)]
  {
    assert s.pending[0] !in s.queue;
    assert Clear(c, s.store).notices == [];
  }

  /** Settling notifies each waiter exactly once: the notifications name the queue's entries,
      none twice. */
  lemma NotifiedOnce(queue: seq<ReqId>, how: Settlement)
    requires Distinct(queue)
    ensures var r := Notifications(queue, how);
      && (forall q :: q in queue ==> exists k :: 0 <= k < |r| && r[k] == Notified(q, how))
      && (forall k, j :: 0 <= k < j < |r| ==> r[k].id != r[j].id)
      && (forall k :: 0 <= k < |r| ==> r[k].id in queue)
  {
    var r := Notifications(queue, how);
    forall q | q in queue
      ensures exists k :: 0 <= k < |r| && r[k] == Notified(q, how)
    {
      var k :| 0 <= k < |queue| && queue[k] == q;
      assert r[k] == Notified(q, how);
    }
  }

  /** A resumed request is replayed once, through the request interceptor, keeping its
      refreshed bearer header and its `_retry` mark. */
  lemma ResumeReplays(c: Codec, s: Sys, id: ReqId)
    requires Inv(s) && Enabled(s, Resume(id))
    ensures var cfg := s.reqs[id].phase.config;
      var t := Step(c, s, Resume(id));
      && t.reqs[id].replays == 1 && t.reqs[id].phase.InFlight?
      && t.reqs[id].phase.config.retry
      && t.reqs[id].phase.config.authorization == cfg.authorization
      && t.reqs[id].phase.config.target == cfg.target
      && t.log == s.log + [Send(id, t.reqs[id].phase.config)]
  {
    var cfg := s.reqs[id].phase.config;
    var p := RequestInterceptor(c, s.store, cfg);
    assert HasAuthorization(cfg) && cfg.retry;
  }

  /** A replayed request's failure is final: its 401 never waits on or starts a refresh. */
  lemma ReplayIsNotRefreshedAgain(c: Codec, s: Sys, id: ReqId, e: ApiError)
    requires Inv(s) && Enabled(s, Reply(id, Failure(e))) && s.reqs[id].replays == 1
    ensures RouteOf(e, s.reqs[id].phase.config) != RefreshPath
    ensures var t := Step(c, s, Reply(id, Failure(e)));
      t.reqs[id].phase.Done? && t.queue == s.queue && t.pending == s.pending
  {
  }

  /** A settled request stays settled, and no request is ever forgotten. */
  lemma SettledStaysSettled(c: Codec, s: Sys, e: Event, id: ReqId)
    requires Inv(s) && Enabled(s, e)
    ensures s.reqs.Keys <= Step(c, s, e).reqs.Keys
    ensures id in s.reqs && s.reqs[id].phase.Done? ==> Step(c, s, e).reqs[id] == s.reqs[id]
  {
    if e.RefreshReply? {
      RefreshReplySettles(c, s, e.result);
    }
  }

  /** Effects that contain no refresh call. */
  predicate NoRefreshCall(effs: seq<Effect>) {
    forall k :: 0 <= k < |effs| ==> !effs[k].RefreshCall?
  }

  lemma AppendNoRefreshCall(s: Sys, t: Sys, added: seq<Effect>)
    requires t.log == s.log + added && NoRefreshCall(added)
    ensures s.log <= t.log
    ensures forall k :: |s.log| <= k < |t.log| ==> !t.log[k].RefreshCall?
  {
    assert forall k :: |s.log| <= k < |t.log| ==> t.log[k] == added[k - |s.log|];
  }

  lemma DeliveriesCallNothing(bus: Bus, notices: seq<Notice>)
    ensures NoRefreshCall(Deliveries(bus, notices))
  {
    var r := Deliveries(bus, notices);
    forall k | 0 <= k < |r| ensures !r[k].RefreshCall? {
      assert r[k] == Delivery(bus, notices[k]);
    }
  }

  lemma NotificationsCallNothing(queue: seq<ReqId>, how: Settlement)
    ensures NoRefreshCall(Notifications(queue, how))
  {
  }

  lemma ConcatNoRefreshCall(a: seq<Effect>, b: seq<Effect>)
    requires NoRefreshCall(a) && NoRefreshCall(b)
    ensures NoRefreshCall(a + b)
  {
    forall k | 0 <= k < |a + b| ensures !(a + b)[k].RefreshCall? {
      if k >= |a| {
        assert (a + b)[k] == b[k - |a|];
      }
    }
  }

  /** The effects of the refresh reply: deliveries, notifications, logout and the toast. */
  lemma RefreshReplyEffects(c: Codec, s: Sys, result: NetResult)
    requires |s.pending| > 0
    ensures var t := OnRefreshReply(c, s, result);
      t.log == s.log + t.log[|s.log|..] && NoRefreshCall(t.log[|s.log|..])
  {
    var t := OnRefreshReply(c, s, result);
    var ok := if result.Success? then RefreshedTokens(result.response.data) else None;
    var added: seq<Effect>;
    if ok.Some? {
      var w := SetTokens(c, s.store, ok.value.0);
      var how := Resolve(ok.value.1);
      DeliveriesCallNothing(s.bus, w.notices);
      NotificationsCallNothing(s.queue, how);
      added := Deliveries(s.bus, w.notices) + Notifications(s.queue, how);
      ConcatNoRefreshCall(Deliveries(s.bus, w.notices), Notifications(s.queue, how));
      assert t.log == s.log + added;
    } else {
      var m := MapApiError(if result.Success? then InvalidRefreshResponse else result.error);
      var w := Clear(c, s.store);
      var tail := [LogoutDelivery(s.bus), Toast(JStr(SessionExpiredKey), None)];
      NotificationsCallNothing(s.queue, Reject(m));
      DeliveriesCallNothing(s.bus, w.notices);
      ConcatNoRefreshCall(Notifications(s.queue, Reject(m)), Deliveries(s.bus, w.notices));
      ConcatNoRefreshCall(Notifications(s.queue, Reject(m)) + Deliveries(s.bus, w.notices), tail);
      added := Notifications(s.queue, Reject(m)) + Deliveries(s.bus, w.notices) + tail;
      assert t.log == s.log + added;
    }
    assert t.log[|s.log|..] == added;
  }

  lemma RefreshReplyCallsNothing(c: Codec, s: Sys, result: NetResult)
    requires Enabled(s, RefreshReply(result))
    ensures var t := Step(c, s, RefreshReply(result));
      s.log <= t.log && forall k :: |s.log| <= k < |t.log| ==> !t.log[k].RefreshCall?
  {
    var t := Step(c, s, RefreshReply(result));
    RefreshReplyEffects(c, s, result);
    AppendNoRefreshCall(s, t, t.log[|s.log|..]);
  }

  lemma FailureCallsOnlyWhenIdle(c: Codec, s: Sys, id: ReqId, err: ApiError)
    requires Inv(s) && Enabled(s, Reply(id, Failure(err)))
    ensures var t := Step(c, s, Reply(id, Failure(err)));
      && s.log <= t.log
      && (forall k :: |s.log| <= k < |t.log| && t.log[k].RefreshCall? ==>
            !s.refreshing && t.pending == [t.log[k].initiator])
  {
    if RouteOf(err, s.reqs[id].phase.config) == RefreshPath {
      RefreshPathCallsOnlyWhenIdle(c, s, id, err);
    } else {
      TerminalCallsNothing(c, s, id, err);
    }
  }

  lemma RefreshPathCallsOnlyWhenIdle(c: Codec, s: Sys, id: ReqId, err: ApiError)
    requires Inv(s) && Enabled(s, Reply(id, Failure(err)))
    requires RouteOf(err, s.reqs[id].phase.config) == RefreshPath
    ensures var t := Step(c, s, Reply(id, Failure(err)));
      && s.log <= t.log
      && (forall k :: |s.log| <= k < |t.log| && t.log[k].RefreshCall? ==>
            !s.refreshing && t.pending == [t.log[k].initiator])
  {
    if Truthy(GetRefreshToken(c, s.store).value) && !s.refreshing {
      IdleRefreshCallsOnce(c, s, id, err);
    } else {
      BusyRefreshCallsNothing(c, s, id, err);
    }
  }

  lemma IdleRefreshCallsOnce(c: Codec, s: Sys, id: ReqId, err: ApiError)
    requires Inv(s) && Enabled(s, Reply(id, Failure(err)))
    requires RouteOf(err, s.reqs[id].phase.config) == RefreshPath
    requires Truthy(GetRefreshToken(c, s.store).value) && !s.refreshing
    ensures var t := Step(c, s, Reply(id, Failure(err)));
      && s.log <= t.log
      && (forall k :: |s.log| <= k < |t.log| && t.log[k].RefreshCall? ==>
            !s.refreshing && t.pending == [t.log[k].initiator])
  {
    RefreshPathStep(c, s, id, err);
    AppendOneRefreshCall(s, Step(c, s, Reply(id, Failure(err))), TimeoutToast(err),
                         RefreshCall(id, GetRefreshToken(c, s.store).value));
  }

  lemma BusyRefreshCallsNothing(c: Codec, s: Sys, id: ReqId, err: ApiError)
    requires Inv(s) && Enabled(s, Reply(id, Failure(err)))
    requires RouteOf(err, s.reqs[id].phase.config) == RefreshPath
    requires !Truthy(GetRefreshToken(c, s.store).value) || s.refreshing
    ensures var t := Step(c, s, Reply(id, Failure(err)));
      && s.log <= t.log
      && (forall k :: |s.log| <= k < |t.log| ==> !t.log[k].RefreshCall?)
  {
    var t := Step(c, s, Reply(id, Failure(err)));
    RefreshPathStep(c, s, id, err);
    if !Truthy(GetRefreshToken(c, s.store).value) {
      AppendNoRefreshCall(s, t, TimeoutToast(err) + [LogoutDelivery(s.bus)]);
    } else {
      AppendNoRefreshCall(s, t, TimeoutToast(err));
    }
  }

  lemma AppendOneRefreshCall(s: Sys, t: Sys, added: seq<Effect>, call: Effect)
    requires t.log == s.log + added + [call] && NoRefreshCall(added)
    ensures s.log <= t.log
    ensures forall k :: |s.log| <= k < |t.log| && t.log[k].RefreshCall? ==> t.log[k] == call
  {
    assert forall k :: |s.log| <= k < |s.log| + |added| ==> t.log[k] == added[k - |s.log|];
  }

  lemma TerminalCallsNothing(c: Codec, s: Sys, id: ReqId, err: ApiError)
    requires Inv(s) && Enabled(s, Reply(id, Failure(err)))
    requires RouteOf(err, s.reqs[id].phase.config) != RefreshPath
    ensures var t := Step(c, s, Reply(id, Failure(err)));
      && s.log <= t.log
      && (forall k :: |s.log| <= k < |t.log| ==> !t.log[k].RefreshCall?)
  {
    var t := Step(c, s, Reply(id, Failure(err)));
    var cfg := s.reqs[id].phase.config;
    TerminalFailure(c, s, id, err);
    var m := MapApiError(err);
    if err.response.None? {
      AppendNoRefreshCall(s, t, TimeoutToast(err) + [Toast(JStr(NetworkKey), None)]);
    } else {
      var status := err.response.value.status;
      var shown := !cfg.suppressToast && (status == 0 || status >= 500);
      AppendNoRefreshCall(s, t, TimeoutToast(err) + (if shown then [Toast(m.messageKey, m.message)] else []));
    }
  }

  lemma LocalCallsNothing(s: Sys, w: Write)
    ensures s.log <= Local(s, w).log
    ensures forall k :: |s.log| <= k < |Local(s, w).log| ==> !Local(s, w).log[k].RefreshCall?
  {
    DeliveriesCallNothing(s.bus, w.notices);
    AppendNoRefreshCall(s, Local(s, w), Deliveries(s.bus, w.notices));
  }

  /** Effects are only ever appended, and a refresh call is made only when none is
      outstanding, by the request that then awaits it. */
  lemma RefreshCallOnlyWhenIdle(c: Codec, s: Sys, e: Event)
    requires Inv(s) && Enabled(s, e)
    ensures var t := Step(c, s, e);
      && s.log <= t.log
      && (forall k :: |s.log| <= k < |t.log| && t.log[k].RefreshCall? ==>
            !s.refreshing && t.pending == [t.log[k].initiator])
  {
    var t := Step(c, s, e);
    match e
    case Issue(id, cfg) =>
      AppendNoRefreshCall(s, t, [Send(id, RequestInterceptor(c, s.store, cfg).config)]);
    case Reply(id, Success(resp)) =>
      AppendNoRefreshCall(s, t, []);
    case Reply(id, Failure(err)) =>
      FailureCallsOnlyWhenIdle(c, s, id, err);
    case RefreshReply(result) =>
      RefreshReplyCallsNothing(c, s, result);
    case Resume(id) =>
      AppendNoRefreshCall(s, t, [Send(id, RequestInterceptor(c, s.store, s.reqs[id].phase.config).config)]);
    case OtherTab(_, _) =>
      AppendNoRefreshCall(s, t, []);
    case SaveSession(session) =>
      LocalCallsNothing(s, SetSession(c, s.store, session));
    case SaveUser(user) =>
      LocalCallsNothing(s, SetUser(c, s.store, user));
    case ClearSession =>
      LocalCallsNothing(s, Clear(c, s.store));
    case Logout =>
      AppendNoRefreshCall(s, t, [LogoutDelivery(s.bus)]);
    case Listen(_, _) =>
      AppendNoRefreshCall(s, t, []);
    case Unlisten(_, _) =>
      AppendNoRefreshCall(s, t, []);
  }

  // ---------------------------------------------------------------- notifications across a run

  /** A request that can no longer wait on a refresh: settled, or carrying `_retry`. */
  predicate PastQueue(r: Req) {
    r.phase.Done? || r.phase.config.retry
  }

  predicate NoNotice(effs: seq<Effect>) {
    forall k :: 0 <= k < |effs| ==> !effs[k].Notified?
  }

  /** Every request named by a notification in `log` is known and past the queue. */
  predicate NoticesPast(log: seq<Effect>, reqs: map<ReqId, Req>) {
    forall k :: 0 <= k < |log| && log[k].Notified? ==> log[k].id in reqs && PastQueue(reqs[log[k].id])
  }

  /** No request is notified twice in `log`. */
  predicate NoticesDistinct(log: seq<Effect>) {
    forall k, j :: 0 <= k < j < |log| && log[k].Notified? && log[j].Notified? ==> log[k].id != log[j].id
  }

  /** Every request named by a notification in `added` is known and still able to wait. */
  predicate NoticesFresh(added: seq<Effect>, reqs: map<ReqId, Req>) {
    forall k :: 0 <= k < |added| && added[k].Notified? ==> added[k].id in reqs && !PastQueue(reqs[added[k].id])
  }

  predicate NoticeInv(s: Sys) {
    NoticesPast(s.log, s.reqs) && NoticesDistinct(s.log)
  }

  /** Appending notifications for requests that were still able to wait keeps every request
      notified at most once. */
  lemma AppendNotices(log: seq<Effect>, added: seq<Effect>, reqs: map<ReqId, Req>, reqs': map<ReqId, Req>)
    requires NoticesPast(log, reqs) && NoticesDistinct(log)
    requires forall id :: id in reqs && PastQueue(reqs[id]) ==> id in reqs' && PastQueue(reqs'[id])
    requires NoticesPast(added, reqs') && NoticesDistinct(added) && NoticesFresh(added, reqs)
    ensures NoticesPast(log + added, reqs') && NoticesDistinct(log + added)
  {
    var a := log + added;
    forall k | 0 <= k < |a| && a[k].Notified? ensures a[k].id in reqs' && PastQueue(reqs'[a[k].id]) {
      if k < |log| { assert a[k] == log[k]; } else { assert a[k] == added[k - |log|]; }
    }
    forall k, j | 0 <= k < j < |a| && a[k].Notified? && a[j].Notified? ensures a[k].id != a[j].id {
      if j < |log| {
        assert a[k] == log[k] && a[j] == log[j];
      } else if k >= |log| {
        assert a[k] == added[k - |log|] && a[j] == added[j - |log|];
      } else {
        assert a[k] == log[k] && a[j] == added[j - |log|];
      }
    }
  }

  /** The effects of settling the queue, framed by effects that notify nobody, notify each
      waiter once. */
  lemma SettlementNotices(pre: seq<Effect>, queue: seq<ReqId>, how: Settlement, post: seq<Effect>,
                          reqs: map<ReqId, Req>, reqs': map<ReqId, Req>)
    requires NoNotice(pre) && NoNotice(post) && Distinct(queue)
    requires forall q :: q in queue ==> q in reqs && !PastQueue(reqs[q]) && q in reqs' && PastQueue(reqs'[q])
    ensures var a := pre + Notifications(queue, how) + post;
      NoticesPast(a, reqs') && NoticesDistinct(a) && NoticesFresh(a, reqs)
  {
    var n := Notifications(queue, how);
    var a := pre + n + post;
    assert forall k :: 0 <= k < |pre| ==> a[k] == pre[k];
    assert forall k :: |pre| <= k < |pre| + |n| ==> a[k] == n[k - |pre|];
    assert forall k :: |pre| + |n| <= k < |a| ==> a[k] == post[k - |pre| - |n|];
  }

  lemma NoNoticeAdded(log: seq<Effect>, added: seq<Effect>, reqs: map<ReqId, Req>)
    requires NoNotice(added)
    ensures NoticesPast(added, reqs) && NoticesDistinct(added) && NoticesFresh(added, reqs)
  {
  }

  /** A request past the queue stays past it. */
  lemma PastQueueStays(c: Codec, s: Sys, e: Event)
    requires Inv(s) && Enabled(s, e)
    ensures var t := Step(c, s, e);
      forall id :: id in s.reqs && PastQueue(s.reqs[id]) ==> id in t.reqs && PastQueue(t.reqs[id])
  {
    var t := Step(c, s, e);
    forall id | id in s.reqs && PastQueue(s.reqs[id]) ensures id in t.reqs && PastQueue(t.reqs[id]) {
      SettledStaysSettled(c, s, e, id);
      match e
      case RefreshReply(result) =>
        RefreshReplySettles(c, s, result);
        StepKeepsInv(c, s, e);
      case Resume(i) =>
        if i == id {
          var p := RequestInterceptor(c, s.store, s.reqs[i].phase.config);
          assert p.config.retry == s.reqs[i].phase.config.retry;
        }
      case _ =>
    }
  }

  /** The effects a step appends; only the refresh reply notifies anyone. */
  lemma StepAppends(c: Codec, s: Sys, e: Event) returns (added: seq<Effect>)
    requires Inv(s) && Enabled(s, e) && !e.RefreshReply?
    ensures Step(c, s, e).log == s.log + added && NoNotice(added)
  {
    var t := Step(c, s, e);
    match e
    case Issue(id, cfg) =>
      added := [Send(id, RequestInterceptor(c, s.store, cfg).config)];
    case Reply(id, Success(resp)) =>
      added := [];
    case Reply(id, Failure(err)) =>
      var cfg := s.reqs[id].phase.config;
      var rt := GetRefreshToken(c, s.store);
      if RouteOf(err, cfg) == RefreshPath {
        RefreshPathStep(c, s, id, err);
        if !Truthy(rt.value) {
          added := TimeoutToast(err) + [LogoutDelivery(s.bus)];
        } else if s.refreshing {
          added := TimeoutToast(err);
        } else {
          added := TimeoutToast(err) + [RefreshCall(id, rt.value)];
        }
      } else {
        TerminalFailure(c, s, id, err);
        var m := MapApiError(err);
        if err.response.None? {
          added := TimeoutToast(err) + [Toast(JStr(NetworkKey), None)];
        } else {
          var status := err.response.value.status;
          var shown := !cfg.suppressToast && (status == 0 || status >= 500);
          added := TimeoutToast(err) + (if shown then [Toast(m.messageKey, m.message)] else []);
        }
      }
    case Resume(id) =>
      added := [Send(id, RequestInterceptor(c, s.store, s.reqs[id].phase.config).config)];
    case OtherTab(_, _) =>
      added := [];
    case SaveSession(session) =>
      added := Deliveries(s.bus, SetSession(c, s.store, session).notices);
    case SaveUser(user) =>
      added := Deliveries(s.bus, SetUser(c, s.store, user).notices);
    case ClearSession =>
      added := Deliveries(s.bus, Clear(c, s.store).notices);
    case Logout =>
      added := [LogoutDelivery(s.bus)];
    case Listen(_, _) =>
      added := [];
    case Unlisten(_, _) =>
      added := [];
  }

  /** The waiters are still able to wait before the refresh reply and past the queue after. */
  lemma QueueLeavesQueue(c: Codec, s: Sys, result: NetResult)
    requires Inv(s) && Enabled(s, RefreshReply(result))
    ensures var t := Step(c, s, RefreshReply(result));
      forall q :: q in s.queue ==> q in s.reqs && !PastQueue(s.reqs[q]) && q in t.reqs && PastQueue(t.reqs[q])
  {
    var t := Step(c, s, RefreshReply(result));
    RefreshReplySettles(c, s, result);
    StepKeepsInv(c, s, RefreshReply(result));
    assert forall q :: q in t.reqs ==> ReqOk(t.reqs[q]);
    assert forall q :: q in s.reqs ==> ReqOk(s.reqs[q]);
  }

  /** Appending settlement notices, framed by effects that notify nobody, for waiters that
      leave the queue. */
  lemma SettlementAppended(s: Sys, t: Sys, pre: seq<Effect>, how: Settlement, post: seq<Effect>)
    requires t.log == s.log + pre + Notifications(s.queue, how) + post
    requires NoNotice(pre) && NoNotice(post) && Distinct(s.queue)
    requires forall q :: q in s.queue ==> q in s.reqs && !PastQueue(s.reqs[q]) && q in t.reqs && PastQueue(t.reqs[q])
    ensures var added := pre + Notifications(s.queue, how) + post;
      t.log == s.log + added && NoticesPast(added, t.reqs) && NoticesDistinct(added) && NoticesFresh(added, s.reqs)
  {
    SettlementNotices(pre, s.queue, how, post, s.reqs, t.reqs);
  }

  /** The refresh reply's effects: the settlement notices, framed by effects that notify
      nobody. */
  lemma RefreshReplyLog(c: Codec, s: Sys, result: NetResult) returns (pre: seq<Effect>, how: Settlement, post: seq<Effect>)
    requires |s.pending| > 0
    ensures OnRefreshReply(c, s, result).log == s.log + pre + Notifications(s.queue, how) + post
    ensures NoNotice(pre) && NoNotice(post)
  {
    var ok := if result.Success? then RefreshedTokens(result.response.data) else None;
    if ok.Some? {
      var w := SetTokens(c, s.store, ok.value.0);
      how := Resolve(ok.value.1);
      DeliveriesNotifyNobody(s.bus, w.notices);
      pre, post := Deliveries(s.bus, w.notices), [];
    } else {
      var m := MapApiError(if result.Success? then InvalidRefreshResponse else result.error);
      var w := Clear(c, s.store);
      how := Reject(m);
      DeliveriesNotifyNobody(s.bus, w.notices);
      pre, post := [], Deliveries(s.bus, w.notices) + [LogoutDelivery(s.bus), Toast(JStr(SessionExpiredKey), None)];
      assert NoNotice(post) by {
        assert forall k :: |w.notices| <= k < |post| ==> !post[k].Notified?;
      }
    }
  }

  lemma DeliveriesNotifyNobody(bus: Bus, notices: seq<Notice>)
    ensures NoNotice(Deliveries(bus, notices))
  {
    var r := Deliveries(bus, notices);
    forall k | 0 <= k < |r| ensures !r[k].Notified? {
      assert r[k] == Delivery(bus, notices[k]);
    }
  }

  lemma StepKeepsNoticeInv(c: Codec, s: Sys, e: Event)
    requires Inv(s) && NoticeInv(s) && Enabled(s, e)
    ensures NoticeInv(Step(c, s, e))
  {
    var t := Step(c, s, e);
    PastQueueStays(c, s, e);
    var added;
    if e.RefreshReply? {
      var pre, how, post := RefreshReplyLog(c, s, e.result);
      QueueLeavesQueue(c, s, e.result);
      SettlementAppended(s, t, pre, how, post);
      added := pre + Notifications(s.queue, how) + post;
    } else {
      added := StepAppends(c, s, e);
      NoNoticeAdded(s.log, added, t.reqs);
      NoNoticeAdded(s.log, added, s.reqs);
    }
    AppendNotices(s.log, added, s.reqs, t.reqs);
  }

  lemma {:induction false} RunKeepsNoticeInv(c: Codec, s: Sys, events: seq<Event>)
    requires Inv(s) && NoticeInv(s)
    ensures Inv(Run(c, s, events)) && NoticeInv(Run(c, s, events))
    decreases |events|
  {
    if |events| > 0 {
      var s1 := if Enabled(s, events[0]) then Step(c, s, events[0]) else s;
      if Enabled(s, events[0]) {
        StepKeepsInv(c, s, events[0]);
        StepKeepsNoticeInv(c, s, events[0]);
      }
      RunKeepsNoticeInv(c, s1, events[1..]);
    }
  }

  /** Over a whole run, no request is notified twice, and a notified request is settled or
      marked `_retry`, so it is not waiting in the queue and can never wait there again. */
  lemma NotifiedAtMostOnce(c: Codec, store: Store, events: seq<Event>)
    ensures var s := Run(c, Start(store), events);
      && (forall k, j :: 0 <= k < j < |s.log| && s.log[k].Notified? && s.log[j].Notified? ==>
            s.log[k].id != s.log[j].id)
      && (forall k :: 0 <= k < |s.log| && s.log[k].Notified? ==>
            s.log[k].id in s.reqs && !s.reqs[s.log[k].id].phase.Queued? && PastQueue(s.reqs[s.log[k].id]))
  {
    StartInv(store);
    RunKeepsNoticeInv(c, Start(store), events);
    var s := Run(c, Start(store), events);
    assert forall id :: id in s.reqs && s.reqs[id].phase.Queued? ==> !PastQueue(s.reqs[id]) by {
      assert forall id :: id in s.reqs ==> ReqOk(s.reqs[id]);
    }
  }
}
