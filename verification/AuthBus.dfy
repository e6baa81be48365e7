/** The in-process event bus (`authBus`): three independent channels, each a JavaScript `Set`
    of callbacks. A `Set` is modelled the way section 24.2 of ECMA-262 describes it, as the
    list [[SetData]] whose deleted entries become empty slots and whose additions are appended.
    `forEach` walks that live list by position, so callbacks added during an emission are
    visited in the same pass and callbacks deleted before their turn are skipped. Callbacks are
    named by listener ids; what a callback does to the bus while it runs is given by a
    reaction function, and whether it throws by a `throws` function. */
module AuthBus {
  import opened Base
  import opened Json

  type ListenerId = nat

  datatype Channel = LogoutChannel | TokensChannel | UserChannel

  /** One entry of a set's [[SetData]] list. */
  datatype Slot = Empty | Callback(id: ListenerId)

  datatype Bus = Bus(logout: seq<Slot>, tokens: seq<Slot>, user: seq<Slot>) {
    function Slots(ch: Channel): seq<Slot> {
      match ch
      case LogoutChannel => logout
      case TokensChannel => tokens
      case UserChannel => user
    }

    function With(ch: Channel, slots: seq<Slot>): (b: Bus)
      ensures b.Slots(ch) == slots
      ensures forall other :: other != ch ==> b.Slots(other) == Slots(other)
    {
      match ch
      case LogoutChannel => this.(logout := slots)
      case TokensChannel => this.(tokens := slots)
      case UserChannel => this.(user := slots)
    }
  }

  /** The three empty sets the module starts with. */
  const Initial: Bus := Bus([], [], [])

  /** The callbacks of a set, in insertion order. */
  function Members(slots: seq<Slot>): seq<ListenerId> {
    if |slots| == 0 then []
    else (if slots[0].Callback? then [slots[0].id] else []) + Members(slots[1..])
  }

  predicate Holds(slots: seq<Slot>, id: ListenerId) {
    Callback(id) in slots
  }

  /** `set.add(id)`: appends a new entry unless the callback is already present. */
  function Add(slots: seq<Slot>, id: ListenerId): seq<Slot> {
    if Holds(slots, id) then slots else slots + [Callback(id)]
  }

  /** `set.delete(id)`: empties the entry holding the callback. */
  function Delete(slots: seq<Slot>, id: ListenerId): seq<Slot> {
    seq(|slots|, i requires 0 <= i < |slots| => if slots[i] == Callback(id) then Empty else slots[i])
  }

  /** `ids` without any occurrence of `x`. */
  function Without(ids: seq<ListenerId>, x: ListenerId): seq<ListenerId> {
    if |ids| == 0 then []
    else (if ids[0] == x then [] else [ids[0]]) + Without(ids[1..], x)
  }

  /** The unsubscribe function `subscribe` returns: it remembers its channel and callback. */
  datatype Unsubscriber = Unsubscriber(channel: Channel, id: ListenerId)

  /** `onLogout` / `onTokensUpdated` / `onUserUpdated`. */
  function Subscribe(b: Bus, ch: Channel, id: ListenerId): (r: (Bus, Unsubscriber))
    ensures r.1 == Unsubscriber(ch, id)
    ensures forall other :: other != ch ==> r.0.Slots(other) == b.Slots(other)
  {
    (b.With(ch, Add(b.Slots(ch), id)), Unsubscriber(ch, id))
  }

  /** Calling an unsubscribe function: deletes its callback from its channel and answers
      whether the callback was there. */
  function Unsubscribe(b: Bus, u: Unsubscriber): (r: (Bus, bool))
    ensures r.1 <==> u.id in Members(b.Slots(u.channel))
    ensures Members(r.0.Slots(u.channel)) == Without(Members(b.Slots(u.channel)), u.id)
    ensures forall other :: other != u.channel ==> r.0.Slots(other) == b.Slots(other)
  {
    MembersHolds(b.Slots(u.channel), u.id);
    MembersDelete(b.Slots(u.channel), u.id);
    (b.With(u.channel, Delete(b.Slots(u.channel), u.id)), Holds(b.Slots(u.channel), u.id))
  }

  lemma {:induction false} MembersHolds(slots: seq<Slot>, id: ListenerId)
    ensures id in Members(slots) <==> Holds(slots, id)
  {
    if |slots| > 0 {
      MembersHolds(slots[1..], id);
      assert slots == [slots[0]] + slots[1..];
    }
  }

  lemma {:induction false} MembersDelete(slots: seq<Slot>, id: ListenerId)
    ensures Members(Delete(slots, id)) == Without(Members(slots), id)
  {
    if |slots| > 0 {
      MembersDelete(slots[1..], id);
      assert Delete(slots, id)[1..] == Delete(slots[1..], id);
      MembersConcat(if slots[0].Callback? then [slots[0].id] else [], Members(slots[1..]), id);
    }
  }

  lemma {:induction false} MembersConcat(a: seq<ListenerId>, b: seq<ListenerId>, x: ListenerId)
    ensures Without(a + b, x) == Without(a, x) + Without(b, x)
  {
    if |a| > 0 {
      assert (a + b)[1..] == a[1..] + b;
      MembersConcat(a[1..], b, x);
    } else {
      assert a + b == b;
    }
  }

  lemma {:induction false} MembersAppend(slots: seq<Slot>, s: Slot)
    ensures Members(slots + [s]) == Members(slots) + (if s.Callback? then [s.id] else [])
  {
    if |slots| > 0 {
      assert (slots + [s])[1..] == slots[1..] + [s];
      MembersAppend(slots[1..], s);
    } else {
      assert slots + [s] == [s];
    }
  }

  /** Subscribing appends the callback unless it is registered already; either way no
      callback is registered twice. */
  lemma SubscribeMembers(b: Bus, ch: Channel, id: ListenerId)
    ensures id in Members(b.Slots(ch)) ==> Subscribe(b, ch, id).0 == b
    ensures id !in Members(b.Slots(ch)) ==>
      Members(Subscribe(b, ch, id).0.Slots(ch)) == Members(b.Slots(ch)) + [id]
  {
    MembersHolds(b.Slots(ch), id);
    MembersAppend(b.Slots(ch), Callback(id));
    if id in Members(b.Slots(ch)) {
      assert b.With(ch, b.Slots(ch)) == b;
    }
  }

  /** Subscribing the same callback twice registers it once, because the channel is a set. */
  lemma SubscribeTwice(b: Bus, ch: Channel, id: ListenerId)
    ensures Subscribe(Subscribe(b, ch, id).0, ch, id).0 == Subscribe(b, ch, id).0
  {
    var b1 := Subscribe(b, ch, id).0;
    assert Holds(b1.Slots(ch), id);
    assert b1.With(ch, b1.Slots(ch)) == b1;
  }

  /** The unsubscribe function returned by a subscription removes that callback again. */
  lemma SubscribeThenUnsubscribe(b: Bus, ch: Channel, id: ListenerId)
    ensures var (b1, u) := Subscribe(b, ch, id);
      Members(Unsubscribe(b1, u).0.Slots(ch)) == Without(Members(b.Slots(ch)), id)
  {
    var (b1, u) := Subscribe(b, ch, id);
    MembersHolds(b.Slots(ch), id);
    MembersAppend(b.Slots(ch), Callback(id));
    MembersConcat(Members(b.Slots(ch)), [id], id);
    assert Without([id], id) == [] by { assert [id][1..] == []; }
  }

  /** What a callback does to the bus while it runs. */
  datatype BusAction = Sub(channel: Channel, id: ListenerId) | Unsub(channel: Channel, id: ListenerId)

  function Perform(b: Bus, acts: seq<BusAction>): Bus
    decreases |acts|
  {
    if |acts| == 0 then b
    else
      var a := acts[0];
      var b1 := match a
        case Sub(ch, id) => Subscribe(b, ch, id).0
        case Unsub(ch, id) => Unsubscribe(b, Unsubscriber(ch, id)).0;
      Perform(b1, acts[1..])
  }

  /** One callback invocation: which callback, with what argument, and whether it threw
      (the exception is caught and logged). */
  datatype Invocation = Invocation(id: ListenerId, payload: JsValue, threw: bool)

  /** The outcome of an emission: the bus afterwards, the invocations in order, and whether
      the walk reached the end of the set within the step budget. */
  datatype Emission = Emission(bus: Bus, calls: seq<Invocation>, finished: bool)

  /** `listeners[ch].forEach(callback => { try { callback(payload) } catch {} })`, from
      position `index` of the live list, visiting at most `budget` positions. */
  function EmitFrom(b: Bus, ch: Channel, payload: JsValue, index: nat,
                    react: ListenerId -> seq<BusAction>, throws: ListenerId -> bool,
                    budget: nat): (r: Emission)
    ensures |r.calls| <= budget
    ensures forall k :: 0 <= k < |r.calls| ==>
      r.calls[k].payload == payload && r.calls[k].threw == throws(r.calls[k].id)
    decreases budget
  {
    var slots := b.Slots(ch);
    if index >= |slots| then Emission(b, [], true)
    else if budget == 0 then Emission(b, [], false)
    else if slots[index].Empty? then EmitFrom(b, ch, payload, index + 1, react, throws, budget - 1)
    else
      var id := slots[index].id;
      var rest := EmitFrom(Perform(b, react(id)), ch, payload, index + 1, react, throws, budget - 1);
      Emission(rest.bus, [Invocation(id, payload, throws(id))] + rest.calls, rest.finished)
  }

  function Emit(b: Bus, ch: Channel, payload: JsValue,
                react: ListenerId -> seq<BusAction>, throws: ListenerId -> bool,
                budget: nat): Emission
  {
    EmitFrom(b, ch, payload, 0, react, throws, budget)
  }

  /** The invocations that calling each listener of `ids` in turn produces. */
  function CallsOf(ids: seq<ListenerId>, payload: JsValue, throws: ListenerId -> bool): (r: seq<Invocation>)
    ensures |r| == |ids|
    ensures forall k :: 0 <= k < |ids| ==> r[k] == Invocation(ids[k], payload, throws(ids[k]))
  {
    if |ids| == 0 then [] else [Invocation(ids[0], payload, throws(ids[0]))] + CallsOf(ids[1..], payload, throws)
  }

  /** Callbacks that leave the bus alone. */
  ghost predicate Quiet(react: ListenerId -> seq<BusAction>) {
    forall id :: react(id) == []
  }

  /** With callbacks that do not touch the bus, an emission calls every listener of the
      channel exactly once, in subscription order, with the payload unchanged, whether or not
      earlier ones threw; no other channel's listener is called and the bus is unchanged. */
  lemma EmitQuiet(b: Bus, ch: Channel, payload: JsValue, index: nat,
                  react: ListenerId -> seq<BusAction>,
                  throws: ListenerId -> bool, budget: nat)
    requires Quiet(react)
    requires index <= |b.Slots(ch)| && |b.Slots(ch)| - index <= budget
    ensures EmitFrom(b, ch, payload, index, react, throws, budget)
         == Emission(b, CallsOf(Members(b.Slots(ch)[index..]), payload, throws), true)
  {
    EmitQuietFrom(b, ch, payload, index, react, throws, budget);
  }

  /** The same, needing only the listeners still ahead of the walk to leave the bus alone. */
  lemma {:induction false} EmitQuietFrom(b: Bus, ch: Channel, payload: JsValue, index: nat,
                                         react: ListenerId -> seq<BusAction>,
                                         throws: ListenerId -> bool, budget: nat)
    requires index <= |b.Slots(ch)| && |b.Slots(ch)| - index <= budget
    requires forall j :: j in Members(b.Slots(ch)[index..]) ==> react(j) == []
    ensures EmitFrom(b, ch, payload, index, react, throws, budget)
         == Emission(b, CallsOf(Members(b.Slots(ch)[index..]), payload, throws), true)
    decreases |b.Slots(ch)| - index
  {
    var slots := b.Slots(ch);
    if index < |slots| {
      QuietAhead(slots, index, react);
      EmitQuietFrom(b, ch, payload, index + 1, react, throws, budget - 1);
      if slots[index].Callback? {
        assert Perform(b, react(slots[index].id)) == b;
        CallsOfCons(slots[index].id, Members(slots[index + 1..]), payload, throws);
      }
    } else {
      assert slots[index..] == [];
    }
  }

  /** Quiet listeners from `index` on are quiet from `index + 1` on, and so is the one at `index`. */
  lemma QuietAhead(slots: seq<Slot>, index: nat, react: ListenerId -> seq<BusAction>)
    requires index < |slots|
    requires forall j :: j in Members(slots[index..]) ==> react(j) == []
    ensures forall j :: j in Members(slots[index + 1..]) ==> react(j) == []
    ensures slots[index].Callback? ==> react(slots[index].id) == []
    ensures Members(slots[index..])
         == (if slots[index].Callback? then [slots[index].id] else []) + Members(slots[index + 1..])
  {
    MembersFrom(slots, index);
  }

  lemma CallsOfCons(id: ListenerId, ids: seq<ListenerId>, payload: JsValue, throws: ListenerId -> bool)
    ensures CallsOf([id] + ids, payload, throws) == [Invocation(id, payload, throws(id))] + CallsOf(ids, payload, throws)
  {
    assert ([id] + ids)[1..] == ids;
  }

  lemma MembersFrom(slots: seq<Slot>, index: nat)
    requires index < |slots|
    ensures Members(slots[index..])
         == (if slots[index].Callback? then [slots[index].id] else []) + Members(slots[index + 1..])
    ensures forall j :: j in Members(slots[index + 1..]) ==> j in Members(slots[index..])
  {
    assert slots[index..][1..] == slots[index + 1..];
  }

  /** `emitLogout` / `emitTokensUpdated` / `emitUserUpdated` with callbacks that leave the bus
      alone: each listener of the channel is called once, in order. */
  lemma EmitDeliversToChannel(b: Bus, ch: Channel, payload: JsValue,
                              react: ListenerId -> seq<BusAction>, throws: ListenerId -> bool)
    requires Quiet(react)
    ensures Emit(b, ch, payload, react, throws, |b.Slots(ch)|)
         == Emission(b, CallsOf(Members(b.Slots(ch)), payload, throws), true)
  {
    EmitQuiet(b, ch, payload, 0, react, throws, |b.Slots(ch)|);
    assert b.Slots(ch)[0..] == b.Slots(ch);
  }

  function Relabel(calls: seq<Invocation>, throws: ListenerId -> bool): (r: seq<Invocation>)
    ensures |r| == |calls|
    ensures forall k :: 0 <= k < |calls| ==> r[k] == calls[k].(threw := throws(calls[k].id))
  {
    if |calls| == 0 then [] else [calls[0].(threw := throws(calls[0].id))] + Relabel(calls[1..], throws)
  }

  function NeverThrows(id: ListenerId): bool { false }

  /** Exception isolation: a throwing callback changes nothing but its own record. The bus,
      the callbacks called and whether the walk finished are those of an emission in which
      nobody throws. */
  lemma {:induction false} ThrowsAreIsolated(b: Bus, ch: Channel, payload: JsValue, index: nat,
                                             react: ListenerId -> seq<BusAction>,
                                             throws: ListenerId -> bool, budget: nat)
    ensures var r := EmitFrom(b, ch, payload, index, react, throws, budget);
            var q := EmitFrom(b, ch, payload, index, react, NeverThrows, budget);
            r.bus == q.bus && r.finished == q.finished && r.calls == Relabel(q.calls, throws)
    decreases budget
  {
    var slots := b.Slots(ch);
    if index < |slots| && budget > 0 {
      if slots[index].Empty? {
        ThrowsAreIsolated(b, ch, payload, index + 1, react, throws, budget - 1);
      } else {
        var id := slots[index].id;
        ThrowsAreIsolated(Perform(b, react(id)), ch, payload, index + 1, react, throws, budget - 1);
      }
    }
  }

  /** Callbacks never shorten a set: deleting empties an entry, adding appends one. So the
      callback at `index` always leaves an entry there, and `LiveIteration`'s first
      requirement holds for every callback. */
  lemma {:induction false} PerformKeepsEntries(b: Bus, acts: seq<BusAction>, ch: Channel)
    ensures |Perform(b, acts).Slots(ch)| >= |b.Slots(ch)|
    decreases |acts|
  {
    if |acts| > 0 {
      var b1 := match acts[0]
        case Sub(c, id) => Subscribe(b, c, id).0
        case Unsub(c, id) => Unsubscribe(b, Unsubscriber(c, id)).0;
      assert |b1.Slots(ch)| >= |b.Slots(ch)|;
      PerformKeepsEntries(b1, acts[1..], ch);
    }
  }

  /** The walk follows the live set. After the callback at `index` has run and changed the
      bus, the walk calls exactly the members of the set as that callback left it that lie
      after its own entry: one it deleted is skipped, one it added is called, in order. */
  lemma LiveIteration(b: Bus, ch: Channel, payload: JsValue, index: nat,
                      react: ListenerId -> seq<BusAction>, throws: ListenerId -> bool, budget: nat)
    requires index < |b.Slots(ch)| && b.Slots(ch)[index].Callback?
    requires var b' := Perform(b, react(b.Slots(ch)[index].id));
      && index < |b'.Slots(ch)| <= index + budget
      && forall j :: j in Members(b'.Slots(ch)[index + 1..]) ==> react(j) == []
    ensures var id := b.Slots(ch)[index].id;
      var b' := Perform(b, react(id));
      var later := Members(b'.Slots(ch)[index + 1..]);
      var r := EmitFrom(b, ch, payload, index, react, throws, budget);
      && r == Emission(b', [Invocation(id, payload, throws(id))] + CallsOf(later, payload, throws), true)
      && (forall x :: x !in later ==> forall k :: 1 <= k < |r.calls| ==> r.calls[k].id != x)
      && (forall x :: x in later ==> exists k :: 1 <= k < |r.calls| && r.calls[k].id == x)
  {
    var id := b.Slots(ch)[index].id;
    var b' := Perform(b, react(id));
    EmitQuietFrom(b', ch, payload, index + 1, react, throws, budget - 1);
    var later := Members(b'.Slots(ch)[index + 1..]);
    var r := EmitFrom(b, ch, payload, index, react, throws, budget);
    var calls := CallsOf(later, payload, throws);
    assert forall k :: 1 <= k < |r.calls| ==> r.calls[k] == calls[k - 1];
    forall x | x in later ensures exists k :: 1 <= k < |r.calls| && r.calls[k].id == x {
      var i :| 0 <= i < |later| && later[i] == x;
      assert r.calls[i + 1].id == x;
    }
  }

  /** The walk follows the live set: here listener 1 deletes listener 2 before its turn and
      adds listener 3, so the emission calls 1 and then 3, and never 2. */
  lemma LiveIterationExample()
    ensures var react := (id: ListenerId) => if id == 1 then [Unsub(LogoutChannel, 2), Sub(LogoutChannel, 3)] else [];
            var b := Bus([Callback(1), Callback(2)], [], []);
            var r := Emit(b, LogoutChannel, None, react, NeverThrows, 5);
            r.finished && |r.calls| == 2 && r.calls[0].id == 1 && r.calls[1].id == 3
  {
    var react := (id: ListenerId) => if id == 1 then [Unsub(LogoutChannel, 2), Sub(LogoutChannel, 3)] else [];
    var b := Bus([Callback(1), Callback(2)], [], []);
    var acts := react(1);
    assert acts == [Unsub(LogoutChannel, 2), Sub(LogoutChannel, 3)];
    var d := Delete([Callback(1), Callback(2)], 2);
    assert d == [Callback(1), Empty];
    var b0 := Unsubscribe(b, Unsubscriber(LogoutChannel, 2)).0;
    assert b0 == Bus([Callback(1), Empty], [], []);
    assert !Holds(b0.logout, 3);
    var b1 := Subscribe(b0, LogoutChannel, 3).0;
    assert b1 == Bus([Callback(1), Empty, Callback(3)], [], []);
    assert acts[1..] == [Sub(LogoutChannel, 3)];
    assert acts[1..][1..] == [];
    assert Perform(b1, []) == b1;
    assert Perform(b0, [Sub(LogoutChannel, 3)]) == b1;
    assert Perform(b, acts) == Perform(b0, acts[1..]);
    assert Perform(b, acts) == b1;
    assert react(3) == [];
    assert Perform(b1, react(3)) == b1;
  }
}
