/** The host side of the browser bridge: calls over one WebSocket client, each settled by a
    response, an abort, a timeout or the closing of the bridge. Every event handler runs to
    completion, so a run is a sequence of events. */
module Bridge {
  import opened Wrappers

  type SocketId = nat
  /** Correlation ids are the decimal forms of 1, 2, 3, ... */
  type CallId = nat
  type Response = int

  datatype Outcome = Responded(response: Response) | Malformed | Canceled | TimedOut | BridgeClosed | SendThrew

  /** What JSON.parse makes of a message: nothing with a usable id, the value null, which has no
      fields to read, or an id and perhaps a response. */
  datatype Message = Ignored | NullText | Addressed(id: CallId, response: Option<Response>)

  datatype Frame = Request(id: CallId, socket: SocketId) | Cancel(id: CallId, socket: SocketId)

  /** One accepted call: its captured socket, the `settled` flag, the resources `settle` releases,
      and the promise handed to the caller. */
  datatype Call = Call(socket: SocketId, hasSignal: bool, sent: bool, settled: bool,
                       timer: bool, listener: bool, promise: Option<Outcome>)

  /** `history` lists the promises in the order they were fulfilled or rejected. */
  datatype State = State(client: Option<SocketId>, open: set<SocketId>, sockets: nat, closed: bool,
                         pending: seq<CallId>, issued: nat, calls: map<CallId, Call>,
                         frames: seq<Frame>, history: seq<(CallId, Outcome)>)

  datatype Event =
    | Connect
    | SocketClosing(socket: SocketId)
    | SocketClosed(socket: SocketId)
    | Receive(message: Message)
    | MakeCall(hasSignal: bool, aborted: bool, serializable: bool)
    | Abort(id: CallId)
    | Timeout(id: CallId)
    | Close

  const INITIAL := State(None, {}, 0, false, [], 0, map[], [], [])

  predicate Connected(s: State) {
    s.client.Some? && s.client.value in s.open
  }

  function Remove(ids: seq<CallId>, id: CallId): (rest: seq<CallId>)
    ensures forall x :: x in rest <==> x in ids && x != id
    ensures |rest| <= |ids|
  {
    if ids == [] then []
    else if ids[0] == id then Remove(ids[1..], id)
    else [ids[0]] + Remove(ids[1..], id)
  }

  function Fulfil(s: State, id: CallId, outcome: Outcome): (t: State)
    requires id in s.calls
    ensures t.calls.Keys == s.calls.Keys
  {
    if s.calls[id].promise.Some? then s
    else s.(calls := s.calls[id := s.calls[id].(promise := Some(outcome))],
            history := s.history + [(id, outcome)])
  }

  /** Forget the call, clear its timer and take its abort listener off. */
  function Release(s: State, id: CallId): (t: State)
    requires id in s.calls
    ensures t.calls.Keys == s.calls.Keys
  {
    s.(pending := Remove(s.pending, id),
       calls := s.calls[id := s.calls[id].(settled := true, timer := false, listener := false)])
  }

  function Settle(s: State, id: CallId, outcome: Outcome): (t: State)
    requires id in s.calls
    ensures t.calls.Keys == s.calls.Keys && t.issued == s.issued
  {
    if s.calls[id].settled then s else Fulfil(Release(s, id), id, outcome)
  }

  function SettleAll(s: State, ids: seq<CallId>): (t: State)
    requires forall i: nat | i < |ids| :: ids[i] in s.calls
    ensures t.calls.Keys == s.calls.Keys && t.issued == s.issued
    decreases ids
  {
    if ids == [] then s else SettleAll(Settle(s, ids[0], BridgeClosed), ids[1..])
  }

  ghost predicate Enabled(s: State, e: Event) {
    && (forall i: nat | i < |s.pending| :: s.pending[i] in s.calls)
    && match e
       case Connect => !s.closed
       case SocketClosing(socket) => socket in s.open
       case SocketClosed(socket) => socket < s.sockets
       case Abort(id) => id in s.calls && s.calls[id].listener
       case Timeout(id) => id in s.calls && s.calls[id].timer
       case Receive(_) => true
       case MakeCall(_, _, _) => true
       case Close => true
  }

  function Accept(s: State, hasSignal: bool, serializable: bool): State
    requires s.client.Some?
  {
    var id := s.issued + 1;
    var t := s.(issued := id,
                calls := s.calls[id := Call(s.client.value, hasSignal, serializable, false, true, hasSignal, None)],
                pending := s.pending + [id]);
    if serializable then t.(frames := t.frames + [Request(id, s.client.value)])
    else Fulfil(t, id, SendThrew)
  }

  function Next(s: State, e: Event): State
    requires Enabled(s, e)
  {
    match e
    case Connect => s.(client := Some(s.sockets), open := s.open + {s.sockets}, sockets := s.sockets + 1)
    case SocketClosing(socket) => s.(open := s.open - {socket})
    case SocketClosed(socket) =>
      s.(open := s.open - {socket}, client := if s.client == Some(socket) then None else s.client)
    case Receive(message) =>
      if message.Addressed? && message.id in s.pending then
        Settle(s, message.id, if message.response.Some? then Responded(message.response.value) else Malformed)
      else s
    case MakeCall(hasSignal, aborted, serializable) =>
      if (hasSignal && aborted) || !Connected(s) then s else Accept(s, hasSignal, serializable)
    case Abort(id) =>
      var socket := s.calls[id].socket;
      var t := if socket in s.open then s.(frames := s.frames + [Cancel(id, socket)]) else s;
      Settle(t, id, Canceled)
    case Timeout(id) => Settle(s, id, TimedOut)
    case Close =>
      var t := SettleAll(s, s.pending);
      t.(open := if s.client.Some? then t.open - {s.client.value} else t.open, closed := true)
  }

  ghost predicate IsRun(events: seq<Event>, states: seq<State>) {
    && |states| == |events| + 1
    && states[0] == INITIAL
    && forall i | 0 <= i < |events| :: Enabled(states[i], events[i]) && states[i + 1] == Next(states[i], events[i])
  }

  // ---------- The invariant ----------

  /** The ids in use are 1 to the counter. */
  ghost predicate IdsSound(s: State) {
    forall id: CallId :: id in s.calls <==> 1 <= id <= s.issued
  }

  ghost predicate Ascending(ids: seq<CallId>) {
    forall i, j | 0 <= i < j < |ids| :: ids[i] < ids[j]
  }

  /** pending holds exactly the accepted calls not yet settled, each once, oldest first. */
  ghost predicate PendingSound(s: State) {
    && (forall id: CallId :: id in s.pending <==> (id in s.calls && !s.calls[id].settled))
    && Ascending(s.pending)
  }

  /** A call owns its timer and abort listener exactly while it is unsettled; an unsettled call has
      no outcome yet unless sending its request threw. */
  ghost predicate CallsSound(s: State) {
    forall id: CallId | id in s.calls ::
      var call := s.calls[id];
      && call.timer == !call.settled
      && call.listener == (!call.settled && call.hasSignal)
      && (call.settled ==> call.promise.Some?)
      && (!call.sent <==> call.promise == Some(SendThrew))
      && (!call.settled && call.sent ==> call.promise.None?)
  }

  /** The history is the list of decided promises, each decided once. */
  ghost predicate HistorySound(s: State) {
    && (forall k: nat | k < |s.history| ::
          s.history[k].0 in s.calls && s.calls[s.history[k].0].promise == Some(s.history[k].1))
    && (forall j: nat, k: nat | j < k < |s.history| :: s.history[j].0 != s.history[k].0)
    && (forall id: CallId | id in s.calls && s.calls[id].promise.Some? ::
          (id, s.calls[id].promise.value) in s.history)
  }

  /** Frames of a call travel on its socket: at most one request, then at most one cancel. */
  ghost predicate FramesSound(s: State) {
    && (forall k: nat | k < |s.frames| ::
          && s.frames[k].id in s.calls && s.frames[k].socket == s.calls[s.frames[k].id].socket
          && (s.frames[k].Request? ==> s.calls[s.frames[k].id].sent)
          && (s.frames[k].Cancel? ==> s.calls[s.frames[k].id].settled))
    && (forall j: nat, k: nat | j < k < |s.frames| && s.frames[j].id == s.frames[k].id ::
          s.frames[j].Request? && s.frames[k].Cancel?)
    && (forall id: CallId | id in s.calls && s.calls[id].sent :: Request(id, s.calls[id].socket) in s.frames)
  }

  /** Once closed, the bridge has no open client and waits for nothing. */
  ghost predicate ClosedSound(s: State) {
    && (forall socket | socket in s.open :: socket < s.sockets)
    && (s.client.Some? ==> s.client.value < s.sockets)
    && (s.closed ==> !Connected(s) && s.pending == [])
  }

  ghost predicate Inv(s: State) {
    IdsSound(s) && PendingSound(s) && CallsSound(s) && HistorySound(s) && FramesSound(s) && ClosedSound(s)
  }

  // ---------- Settling ----------

  lemma {:induction false} RemoveAscending(ids: seq<CallId>, id: CallId)
    requires Ascending(ids)
    ensures Ascending(Remove(ids, id))
  {
    if ids != [] {
      var rest := Remove(ids[1..], id);
      RemoveAscending(ids[1..], id);
      forall j | 0 <= j < |rest| ensures ids[0] < rest[j] {
        assert rest[j] in ids[1..];
      }
    }
  }

  function SettledCall(call: Call, outcome: Outcome): Call {
    call.(settled := true, timer := false, listener := false,
          promise := if call.promise.None? then Some(outcome) else call.promise)
  }

  /** Everything a first settle does. */
  lemma SettleIs(s: State, id: CallId, outcome: Outcome)
    requires id in s.calls && !s.calls[id].settled
    ensures Settle(s, id, outcome)
         == s.(pending := Remove(s.pending, id),
               calls := s.calls[id := SettledCall(s.calls[id], outcome)],
               history := if s.calls[id].promise.None? then s.history + [(id, outcome)] else s.history)
  {
    hide Remove;
    var t := Settle(s, id, outcome);
    assert t.calls == s.calls[id := SettledCall(s.calls[id], outcome)];
  }

  lemma SettlePending(s: State, id: CallId, outcome: Outcome)
    requires PendingSound(s) && id in s.calls
    ensures PendingSound(Settle(s, id, outcome))
  {
    hide Remove, Ascending, Fulfil, Release;
    if !s.calls[id].settled {
      SettleIs(s, id, outcome);
    }
    hide Settle;
    RemoveAscending(s.pending, id);
    var t := Settle(s, id, outcome);
    forall x: CallId ensures x in t.pending <==> (x in t.calls && !t.calls[x].settled) {
      assert x in s.pending <==> (x in s.calls && !s.calls[x].settled);
    }
  }

  lemma SettleCalls(s: State, id: CallId, outcome: Outcome)
    requires CallsSound(s) && id in s.calls && outcome != SendThrew
    ensures CallsSound(Settle(s, id, outcome))
  {}

  lemma FulfilHistory(s: State, id: CallId, outcome: Outcome)
    requires HistorySound(s) && id in s.calls
    ensures HistorySound(Fulfil(s, id, outcome))
  {
    if s.calls[id].promise.None? {
      var t := Fulfil(s, id, outcome);
      assert t.history == s.history + [(id, outcome)] && t.calls[id].promise == Some(outcome);
      assert forall x: CallId | x in s.calls && x != id :: t.calls[x] == s.calls[x];
      hide Fulfil;
      forall k: nat | k < |s.history| ensures s.history[k].0 != id {
        assert s.calls[s.history[k].0].promise == Some(s.history[k].1);
      }
      forall x: CallId | x in t.calls && t.calls[x].promise.Some?
        ensures (x, t.calls[x].promise.value) in t.history
      {
        if x != id {
          assert (x, s.calls[x].promise.value) in s.history;
        }
      }
    }
  }

  lemma SettleHistory(s: State, id: CallId, outcome: Outcome)
    requires HistorySound(s) && id in s.calls
    ensures HistorySound(Settle(s, id, outcome))
  {
    hide Remove, Fulfil;
    if !s.calls[id].settled {
      var t := Release(s, id);
      assert forall x | x in s.calls :: t.calls[x].promise == s.calls[x].promise;
      assert HistorySound(t);
      FulfilHistory(t, id, outcome);
    }
  }

  lemma SettleFrames(s: State, id: CallId, outcome: Outcome)
    requires FramesSound(s) && id in s.calls
    ensures FramesSound(Settle(s, id, outcome))
  {
    hide Remove, Fulfil, Release;
    if !s.calls[id].settled {
      SettleIs(s, id, outcome);
      hide Settle;
      var t := Settle(s, id, outcome);
      assert forall x: CallId | x in s.calls ::
               t.calls[x].socket == s.calls[x].socket && t.calls[x].sent == s.calls[x].sent;
    }
  }

  /** Settling touches neither sockets nor frames, and only the one call. */
  lemma SettleOnly(s: State, id: CallId, outcome: Outcome)
    requires id in s.calls
    ensures var t := Settle(s, id, outcome);
            && t.client == s.client && t.open == s.open && t.closed == s.closed && t.sockets == s.sockets
            && t.frames == s.frames
            && (forall x: CallId | x in s.calls && x != id :: t.calls[x] == s.calls[x])
            && t.calls[id].settled
            && (s.calls[id].promise.Some? ==> t.calls[id].promise == s.calls[id].promise)
            && t.calls[id].socket == s.calls[id].socket && t.calls[id].sent == s.calls[id].sent
  {
    hide Remove, Fulfil, Release;
    if !s.calls[id].settled {
      SettleIs(s, id, outcome);
    }
  }

  lemma SettleKeeps(s: State, id: CallId, outcome: Outcome)
    requires PendingSound(s) && CallsSound(s) && HistorySound(s) && FramesSound(s)
    requires id in s.calls && outcome != SendThrew
    ensures var t := Settle(s, id, outcome);
            PendingSound(t) && CallsSound(t) && HistorySound(t) && FramesSound(t)
  {
    hide *;
    SettlePending(s, id, outcome);
    SettleCalls(s, id, outcome);
    SettleHistory(s, id, outcome);
    SettleFrames(s, id, outcome);
  }

  lemma {:induction false} SettleAllKeeps(s: State, ids: seq<CallId>)
    requires PendingSound(s) && CallsSound(s) && HistorySound(s) && FramesSound(s)
    requires forall i: nat | i < |ids| :: ids[i] in s.calls
    ensures var t := SettleAll(s, ids);
            && PendingSound(t) && CallsSound(t) && HistorySound(t) && FramesSound(t)
            && t.client == s.client && t.open == s.open && t.closed == s.closed && t.sockets == s.sockets
            && t.frames == s.frames
            && (forall x: CallId | x in s.calls && (x in ids || s.calls[x].settled) :: t.calls[x].settled)
            && (forall x: CallId | x in s.calls && s.calls[x].promise.Some? ::
                  t.calls[x].promise == s.calls[x].promise)
    decreases ids
  {
    hide PendingSound, CallsSound, HistorySound, FramesSound, Settle;
    if ids != [] {
      var t := Settle(s, ids[0], BridgeClosed);
      SettleKeeps(s, ids[0], BridgeClosed);
      SettleOnly(s, ids[0], BridgeClosed);
      SettleAllKeeps(t, ids[1..]);
    }
  }

  // ---------- Every event keeps the invariant ----------

  lemma AcceptKeeps(s: State, hasSignal: bool, serializable: bool)
    requires Inv(s) && Connected(s)
    ensures Inv(Accept(s, hasSignal, serializable))
  {
    var t := Accept(s, hasSignal, serializable);
    var id := s.issued + 1;
    assert forall x: CallId | x in s.calls :: t.calls[x] == s.calls[x];
    AcceptPending(s, hasSignal, serializable);
    AcceptHistory(s, hasSignal, serializable);
    AcceptFrames(s, hasSignal, serializable);
  }

  lemma AcceptPending(s: State, hasSignal: bool, serializable: bool)
    requires IdsSound(s) && PendingSound(s) && s.client.Some?
    ensures PendingSound(Accept(s, hasSignal, serializable))
  {
    var t := Accept(s, hasSignal, serializable);
    assert forall id | id in t.pending :: id in s.pending || id == s.issued + 1;
    assert forall x: CallId | x in s.calls :: t.calls[x] == s.calls[x];
    assert t.pending[|s.pending|] == s.issued + 1;
    forall j: nat | j < |s.pending| ensures t.pending[j] in s.pending {
      assert t.pending[j] == s.pending[j];
    }
  }

  lemma AcceptHistory(s: State, hasSignal: bool, serializable: bool)
    requires IdsSound(s) && HistorySound(s) && s.client.Some?
    ensures HistorySound(Accept(s, hasSignal, serializable))
  {
    var t := Accept(s, hasSignal, serializable);
    assert forall x: CallId | x in s.calls :: t.calls[x] == s.calls[x];
    if !serializable {
      assert t.history[|s.history|] == (s.issued + 1, SendThrew);
    }
  }

  lemma AcceptFrames(s: State, hasSignal: bool, serializable: bool)
    requires IdsSound(s) && FramesSound(s) && s.client.Some?
    ensures FramesSound(Accept(s, hasSignal, serializable))
  {
    var t := Accept(s, hasSignal, serializable);
    assert forall x: CallId | x in s.calls :: t.calls[x] == s.calls[x];
    if serializable {
      assert t.frames[|s.frames|] == Request(s.issued + 1, s.client.value);
    }
  }

  /** A cancel frame may follow where the call's only frames are requests. */
  lemma CancelAppended(s: State, id: CallId)
    requires FramesSound(s) && id in s.calls && s.calls[id].settled
    requires forall k: nat | k < |s.frames| && s.frames[k].id == id :: s.frames[k].Request?
    ensures FramesSound(s.(frames := s.frames + [Cancel(id, s.calls[id].socket)]))
  {
    var u := s.(frames := s.frames + [Cancel(id, s.calls[id].socket)]);
    forall j: nat, k: nat | j < k < |u.frames| && u.frames[j].id == u.frames[k].id
      ensures u.frames[j].Request? && u.frames[k].Cancel?
    {
      assert u.frames[j] == s.frames[j];
      if k < |s.frames| {
        assert u.frames[k] == s.frames[k];
      }
    }
    forall x: CallId | x in u.calls && u.calls[x].sent ensures Request(x, u.calls[x].socket) in u.frames {
      assert Request(x, s.calls[x].socket) in s.frames;
    }
  }

  lemma AbortFrames(s: State, id: CallId)
    requires FramesSound(s) && CallsSound(s) && id in s.calls && s.calls[id].listener
    ensures var t := Settle(s, id, Canceled); FramesSound(t.(frames := t.frames + [Cancel(id, s.calls[id].socket)]))
  {
    hide Settle;
    SettleFrames(s, id, Canceled);
    SettleOnly(s, id, Canceled);
    assert forall k: nat | k < |s.frames| && s.frames[k].id == id :: s.frames[k].Request?;
    hide FramesSound, CallsSound;
    CancelAppended(Settle(s, id, Canceled), id);
  }

  lemma MakeCallKeeps(s: State, e: Event)
    requires Inv(s) && e.MakeCall? && Enabled(s, e)
    ensures Inv(Next(s, e))
  {
    hide Inv, Accept;
    if Connected(s) && !(e.hasSignal && e.aborted) {
      AcceptKeeps(s, e.hasSignal, e.serializable);
    }
  }

  lemma SettledInv(s: State, id: CallId, outcome: Outcome)
    requires Inv(s) && id in s.calls && outcome != SendThrew
    ensures Inv(Settle(s, id, outcome))
  {
    hide Settle, PendingSound, CallsSound, HistorySound, FramesSound;
    SettleKeeps(s, id, outcome);
    SettleOnly(s, id, outcome);
    if s.closed {
      NothingToSettle(s, id);
    }
  }

  lemma NothingToSettle(s: State, id: CallId)
    requires PendingSound(s) && id in s.calls && s.pending == []
    ensures s.calls[id].settled
    ensures forall outcome :: Settle(s, id, outcome) == s
  {
    assert id !in s.pending;
  }

  lemma AbortKeeps(s: State, id: CallId)
    requires Inv(s) && Enabled(s, Abort(id))
    ensures Inv(Next(s, Abort(id)))
  {
    hide Settle, PendingSound, CallsSound, HistorySound, FramesSound;
    SettledInv(s, id, Canceled);
    var t := Settle(s, id, Canceled);
    SettleOnly(s, id, Canceled);
    var socket := s.calls[id].socket;
    if socket in s.open {
      var u := t.(frames := t.frames + [Cancel(id, socket)]);
      AbortFrames(s, id);
      FramesApart(s, id, Cancel(id, socket));
      assert PendingSound(u) && CallsSound(u) && HistorySound(u) by { SameBooks(t, u); }
    }
  }

  lemma SomePending(s: State)
    ensures s.pending == [] || exists id :: id in s.pending
  {
    assert s.pending == [] || s.pending[0] in s.pending;
  }

  lemma FrameOrder(s: State, j: nat, k: nat)
    requires FramesSound(s) && j < |s.frames| && k < |s.frames| && s.frames[j].id == s.frames[k].id
    ensures j == k || (j < k && s.frames[j].Request?) || (k < j && s.frames[k].Request?)
  {}

  /** Everything but the frames' own soundness ignores the frames and the sockets. */
  lemma SameBooks(t: State, u: State)
    requires u.calls == t.calls && u.pending == t.pending && u.history == t.history
    requires PendingSound(t) && CallsSound(t) && HistorySound(t)
    ensures PendingSound(u) && CallsSound(u) && HistorySound(u)
    ensures u.frames == t.frames && FramesSound(t) ==> FramesSound(u)
  {}

  /** Sending the cancel frame and settling do not interfere. */
  lemma FramesApart(s: State, id: CallId, frame: Frame)
    requires id in s.calls
    ensures var t := Settle(s, id, Canceled);
            Settle(s.(frames := s.frames + [frame]), id, Canceled) == t.(frames := t.frames + [frame])
  {
    hide Remove;
  }

  lemma CloseKeeps(s: State)
    requires Inv(s) && Enabled(s, Close)
    ensures Inv(Next(s, Close))
  {
    hide SettleAll, CallsSound, HistorySound, FramesSound;
    SettleAllKeeps(s, s.pending);
    var t := SettleAll(s, s.pending);
    forall id | id in t.calls ensures t.calls[id].settled {
      assert id in s.pending || s.calls[id].settled;
    }
    SomePending(t);
    SameBooks(t, Next(s, Close));
  }

  lemma SocketsKeep(s: State, e: Event)
    requires Inv(s) && Enabled(s, e) && (e.Connect? || e.SocketClosing? || e.SocketClosed?)
    ensures Inv(Next(s, e))
  {
    var t := Next(s, e);
    assert PendingSound(t) && CallsSound(t) && HistorySound(t) && FramesSound(t) && IdsSound(t);
  }

  lemma StepKeepsInv(s: State, e: Event)
    requires Inv(s) && Enabled(s, e)
    ensures Inv(Next(s, e))
  {
    hide PendingSound, HistorySound, FramesSound, ClosedSound, Settle, SettleAll, Accept;
    match e
    case Connect => SocketsKeep(s, e);
    case SocketClosing(_) => SocketsKeep(s, e);
    case SocketClosed(_) => SocketsKeep(s, e);
    case MakeCall(_, _, _) => MakeCallKeeps(s, e);
    case Abort(id) => AbortKeeps(s, id);
    case Timeout(id) => SettledInv(s, id, TimedOut);
    case Close => CloseKeeps(s);
    case Receive(message) =>
      if message.Addressed? && message.id in s.pending {
        PendingKnown(s, message.id);
        SettledInv(s, message.id,
                   if message.response.Some? then Responded(message.response.value) else Malformed);
      }
  }

  lemma PendingKnown(s: State, id: CallId)
    requires PendingSound(s) && id in s.pending
    ensures id in s.calls && !s.calls[id].settled
  {}

  lemma {:induction false} RunInv(events: seq<Event>, states: seq<State>, n: nat)
    requires IsRun(events, states) && n <= |events|
    ensures Inv(states[n])
  {
    hide Inv, Next;
    if n == 0 {
      InitialInv();
    } else {
      RunInv(events, states, n - 1);
      assert states[n - 1 + 1] == Next(states[n - 1], events[n - 1]);
      StepKeepsInv(states[n - 1], events[n - 1]);
    }
  }

  lemma InitialInv()
    ensures Inv(INITIAL)
  {}

  // ---------- What no event undoes ----------

  /** Known calls stay known, settled ones settled, and a decided promise keeps its outcome. */
  ghost predicate Later(s: State, t: State) {
    && s.issued <= t.issued && s.calls.Keys <= t.calls.Keys && s.history <= t.history && s.frames <= t.frames
    && (forall id | id in s.calls ::
          && (s.calls[id].settled ==> t.calls[id].settled)
          && (s.calls[id].promise.Some? ==> t.calls[id].promise == s.calls[id].promise))
    && (s.closed ==> t.closed)
  }

  lemma SettleLater(s: State, id: CallId, outcome: Outcome)
    requires id in s.calls
    ensures Later(s, Settle(s, id, outcome))
  {
    hide Remove;
  }

  lemma {:induction false} SettleAllLater(s: State, ids: seq<CallId>)
    requires forall i: nat | i < |ids| :: ids[i] in s.calls
    ensures Later(s, SettleAll(s, ids))
    decreases ids
  {
    hide Settle;
    if ids != [] {
      SettleLater(s, ids[0], BridgeClosed);
      SettleAllLater(Settle(s, ids[0], BridgeClosed), ids[1..]);
    }
  }

  lemma StepLater(s: State, e: Event)
    requires Inv(s) && Enabled(s, e)
    ensures Later(s, Next(s, e))
  {
    hide PendingSound, CallsSound, HistorySound, FramesSound, ClosedSound, Settle, SettleAll, Remove;
    match e
    case Abort(id) =>
      SettleLater(s, id, Canceled);
      SettleLater(s.(frames := s.frames + [Cancel(id, s.calls[id].socket)]), id, Canceled);
    case Timeout(id) => SettleLater(s, id, TimedOut);
    case Close => SettleAllLater(s, s.pending);
    case Receive(message) =>
      if message.Addressed? && message.id in s.pending {
        PendingKnown(s, message.id);
        SettleLater(s, message.id,
                    if message.response.Some? then Responded(message.response.value) else Malformed);
      }
    case _ =>
  }

  lemma {:induction false} RunLater(events: seq<Event>, states: seq<State>, m: nat, n: nat)
    requires IsRun(events, states) && m <= n <= |events|
    ensures Later(states[m], states[n])
    decreases n
  {
    hide Inv, Next;
    if m < n {
      RunLater(events, states, m, n - 1);
      RunInv(events, states, n - 1);
      assert states[n - 1 + 1] == Next(states[n - 1], events[n - 1]);
      StepLater(states[n - 1], events[n - 1]);
    }
  }

  // ---------- Over all runs ----------

  /** Each call resolves at most once: a decided promise never changes, and the history of
      decisions only grows and names no call twice. */
  lemma ResolvedAtMostOnce(events: seq<Event>, states: seq<State>, m: nat, n: nat)
    requires IsRun(events, states) && m <= n <= |events|
    ensures forall id | id in states[m].calls && states[m].calls[id].promise.Some? ::
              id in states[n].calls && states[n].calls[id].promise == states[m].calls[id].promise
    ensures states[m].history <= states[n].history
    ensures forall j: nat, k: nat | j < k < |states[n].history| :: states[n].history[j].0 != states[n].history[k].0
  {
    RunLater(events, states, m, n);
    RunInv(events, states, n);
  }

  /** pending is exactly the set of accepted unsettled calls, and exactly those own a live timer,
      and an abort listener if they came with a signal. */
  lemma PendingOwnsTheResources(events: seq<Event>, states: seq<State>, n: nat, id: CallId)
    requires IsRun(events, states) && n <= |events| && id in states[n].calls
    ensures var s := states[n];
            && (id in s.pending <==> !s.calls[id].settled)
            && (id in s.pending <==> s.calls[id].timer)
            && (s.calls[id].listener <==> id in s.pending && s.calls[id].hasSignal)
  {
    RunInv(events, states, n);
  }

  /** A call's caller is still waiting exactly while the call is pending, unless sending the
      request threw: such a call is rejected at once, yet stays pending until it is settled. */
  lemma WaitingIffPending(events: seq<Event>, states: seq<State>, n: nat, id: CallId)
    requires IsRun(events, states) && n <= |events| && id in states[n].calls
    ensures var s := states[n];
            (s.calls[id].promise.None? <==> id in s.pending) <==> (s.calls[id].sent || s.calls[id].settled)
  {
    RunInv(events, states, n);
    var s := states[n];
    assert id in s.pending <==> !s.calls[id].settled;
  }

  /** That exception happens: the rejected call below holds its place in pending. */
  lemma ThrownCallStaysPending()
    ensures var s := Next(Next(INITIAL, Connect), MakeCall(true, false, false));
            1 in s.pending && 1 in s.calls && s.calls[1].promise == Some(SendThrew) && s.calls[1].timer
  {
    var s := Next(Next(INITIAL, Connect), MakeCall(true, false, false));
    assert s.pending == [1];
  }

  /** The one message that makes the listener throw settles nothing: what was pending stays pending,
      each call with its timer still to run out. */
  lemma NullSettlesNothing(events: seq<Event>, states: seq<State>, n: nat)
    requires IsRun(events, states) && n < |events| && events[n] == Receive(NullText)
    ensures states[n + 1] == states[n]
    ensures forall id | id in states[n].pending ::
              id in states[n + 1].pending && Enabled(states[n + 1], Timeout(id))
  {
    hide Remove, Settle, SettleAll, Accept;
    RunInv(events, states, n);
    assert states[n + 1] == Next(states[n], events[n]);
    forall id | id in states[n].pending ensures Enabled(states[n], Timeout(id)) {
      PendingOwnsTheResources(events, states, n, id);
    }
  }

  /** A message settles only the call it names, and only while that call is pending. */
  lemma ResponseReachesOnlyItsCall(events: seq<Event>, states: seq<State>, n: nat)
    requires IsRun(events, states) && n < |events| && events[n].Receive?
    ensures var s, t, message := states[n], states[n + 1], events[n].message;
            if message.Addressed? && message.id in s.pending then
              && message.id in s.calls
              && (forall x | x in s.calls && x != message.id :: x in t.calls && t.calls[x] == s.calls[x])
              && t.calls.Keys == s.calls.Keys && t.frames == s.frames
              && message.id !in t.pending && t.calls[message.id].settled
              && (s.calls[message.id].sent ==>
                    t.calls[message.id].promise
                    == Some(if message.response.Some? then Responded(message.response.value) else Malformed))
            else t == s
  {
    hide Settle;
    RunInv(events, states, n);
    RunInv(events, states, n + 1);
    var s, t, message := states[n], states[n + 1], events[n].message;
    assert t == Next(s, events[n]);
    if message.Addressed? && message.id in s.pending {
      var outcome := if message.response.Some? then Responded(message.response.value) else Malformed;
      SettleOnly(s, message.id, outcome);
      if s.calls[message.id].sent {
        SettleDecides(s, message.id, outcome);
      }
    }
  }

  lemma SettleDecides(s: State, id: CallId, outcome: Outcome)
    requires id in s.calls && !s.calls[id].settled && s.calls[id].promise.None?
    ensures Settle(s, id, outcome).calls[id].promise == Some(outcome)
  {}

  // ---------- What each event does ----------

  /** An abort tells the extension to stop, over the call's own socket while that is open, and an
      undecided call is canceled. */
  lemma AbortCancels(events: seq<Event>, states: seq<State>, n: nat, id: CallId)
    requires IsRun(events, states) && n < |events| && events[n] == Abort(id)
    ensures var s, t := states[n], states[n + 1];
            && id in s.pending && id in s.calls && id in t.calls && id !in t.pending
            && t.frames == (if s.calls[id].socket in s.open then s.frames + [Cancel(id, s.calls[id].socket)]
                            else s.frames)
            && t.calls[id].promise == (if s.calls[id].sent then Some(Canceled) else Some(SendThrew))
  {
    RunInv(events, states, n);
    RunInv(events, states, n + 1);
    assert states[n + 1] == Next(states[n], events[n]);
    var s := states[n];
    var u := if s.calls[id].socket in s.open then s.(frames := s.frames + [Cancel(id, s.calls[id].socket)]) else s;
    SettleOnly(u, id, Canceled);
    if s.calls[id].promise.None? {
      SettleDecides(u, id, Canceled);
    }
  }

  /** A call that runs out of time is settled so, and nothing is sent. */
  lemma TimeoutSettles(events: seq<Event>, states: seq<State>, n: nat, id: CallId)
    requires IsRun(events, states) && n < |events| && events[n] == Timeout(id)
    ensures var s, t := states[n], states[n + 1];
            && id in s.pending && id in s.calls && id in t.calls && id !in t.pending && t.frames == s.frames
            && t.calls[id].promise == (if s.calls[id].sent then Some(TimedOut) else Some(SendThrew))
  {
    RunInv(events, states, n);
    RunInv(events, states, n + 1);
    assert states[n + 1] == Next(states[n], events[n]);
    SettleOnly(states[n], id, TimedOut);
    if states[n].calls[id].promise.None? {
      SettleDecides(states[n], id, TimedOut);
    }
  }

  lemma {:induction false} AllDecided(s: State, ids: seq<CallId>, id: CallId)
    requires forall i: nat | i < |ids| :: ids[i] in s.calls
    requires id in s.calls && id in ids && !s.calls[id].settled && s.calls[id].promise.None?
    ensures SettleAll(s, ids).calls[id].promise == Some(BridgeClosed)
    decreases ids
  {
    hide Settle;
    var t := Settle(s, ids[0], BridgeClosed);
    if id == ids[0] {
      SettleDecides(s, id, BridgeClosed);
      DecidedStays(t, ids[1..], id);
    } else {
      SettleOnly(s, ids[0], BridgeClosed);
      AllDecided(t, ids[1..], id);
    }
  }

  lemma {:induction false} DecidedStays(s: State, ids: seq<CallId>, id: CallId)
    requires forall i: nat | i < |ids| :: ids[i] in s.calls
    requires id in s.calls && s.calls[id].promise.Some?
    ensures SettleAll(s, ids).calls[id].promise == s.calls[id].promise
    decreases ids
  {
    hide Settle;
    if ids != [] {
      SettleOnly(s, ids[0], BridgeClosed);
      DecidedStays(Settle(s, ids[0], BridgeClosed), ids[1..], id);
    }
  }

  /** Closing tells every waiting caller that the bridge was closed, sends nothing, and closes the
      client's socket and no other. */
  lemma CloseSettlesAll(events: seq<Event>, states: seq<State>, n: nat)
    requires IsRun(events, states) && n < |events| && events[n] == Close
    ensures var s, t := states[n], states[n + 1];
            && t.frames == s.frames && t.pending == [] && t.closed && t.client == s.client
            && t.open == (if s.client.Some? then s.open - {s.client.value} else s.open)
            && t.calls.Keys == s.calls.Keys
            && forall id | id in s.calls ::
                 t.calls[id].promise == if s.calls[id].promise.None? then Some(BridgeClosed) else s.calls[id].promise
  {
    RunInv(events, states, n);
    RunInv(events, states, n + 1);
    var s, t := states[n], states[n + 1];
    assert t == Next(s, events[n]);
    SettleAllKeeps(s, s.pending);
    forall id | id in s.calls
      ensures t.calls[id].promise == if s.calls[id].promise.None? then Some(BridgeClosed) else s.calls[id].promise
    {
      if s.calls[id].promise.None? {
        AllDecided(s, s.pending, id);
      } else {
        DecidedStays(s, s.pending, id);
      }
    }
  }

  /** A call is refused, without a trace, when it is aborted already or no client is connected; else
      it is pending, with a timer, a listener if it came with a signal, and its request on its way
      over the client's socket, unless sending it threw. */
  lemma CallIsSent(events: seq<Event>, states: seq<State>, n: nat)
    requires IsRun(events, states) && n < |events| && events[n].MakeCall?
    ensures var s, t, e := states[n], states[n + 1], events[n];
            var id := s.issued + 1;
            if (e.hasSignal && e.aborted) || s.client.None? || s.client.value !in s.open then t == s
            else
              && id !in s.calls && t.pending == s.pending + [id] && t.calls.Keys == s.calls.Keys + {id}
              && t.calls[id] == Call(s.client.value, e.hasSignal, e.serializable, false, true, e.hasSignal,
                                     if e.serializable then None else Some(SendThrew))
              && t.frames == s.frames + (if e.serializable then [Request(id, s.client.value)] else [])
              && forall x | x in s.calls :: t.calls[x] == s.calls[x]
  {
    RunInv(events, states, n);
    assert states[n + 1] == Next(states[n], events[n]);
  }

  /** The client is the newest connection, from when it is made until it is closed. */
  lemma {:induction false} ClientIsNewest(events: seq<Event>, states: seq<State>, n: nat)
    requires IsRun(events, states) && n <= |events|
    ensures var newest := states[n].sockets - 1;
            states[n].client
            == if newest < 0 || exists m: nat :: m < n && events[m] == SocketClosed(newest) then None else Some(newest)
    ensures forall m: nat | m < n && events[m].SocketClosed? :: events[m].socket < states[n].sockets
  {
    hide Settle, SettleAll, Accept;
    if n > 0 {
      ClientIsNewest(events, states, n - 1);
      assert states[n - 1 + 1] == Next(states[n - 1], events[n - 1]);
      ClientAfter(states[n - 1], events[n - 1]);
    }
  }

  lemma ClientAfter(s: State, e: Event)
    requires Enabled(s, e)
    ensures var t := Next(s, e);
            && t.sockets == s.sockets + (if e.Connect? then 1 else 0)
            && t.client == (if e.Connect? then Some(s.sockets)
                            else if e.SocketClosed? && s.client == Some(e.socket) then None
                            else s.client)
  {
    hide Settle, SettleAll;
    match e
    case Receive(message) =>
      if message.Addressed? && message.id in s.pending {
        SettleOnly(s, message.id, if message.response.Some? then Responded(message.response.value) else Malformed);
      }
    case Abort(id) =>
      SettleOnly(s, id, Canceled);
      var socket := s.calls[id].socket;
      SettleOnly(s.(frames := s.frames + [Cancel(id, socket)]), id, Canceled);
    case Timeout(id) => SettleOnly(s, id, TimedOut);
    case Close => AllKeepClient(s, s.pending);
    case _ =>
  }

  lemma {:induction false} AllKeepClient(s: State, ids: seq<CallId>)
    requires forall i: nat | i < |ids| :: ids[i] in s.calls
    ensures SettleAll(s, ids).client == s.client && SettleAll(s, ids).sockets == s.sockets
    decreases ids
  {
    hide Settle;
    if ids != [] {
      SettleOnly(s, ids[0], BridgeClosed);
      AllKeepClient(Settle(s, ids[0], BridgeClosed), ids[1..]);
    }
  }

  /** Once a call is settled, a late or duplicate response to it changes nothing, at any later time. */
  lemma LateResponseDropped(events: seq<Event>, states: seq<State>, m: nat, n: nat, id: CallId)
    requires IsRun(events, states) && m <= n < |events|
    requires id in states[m].calls && states[m].calls[id].settled
    requires events[n].Receive? && events[n].message.Addressed? && events[n].message.id == id
    ensures states[n + 1] == states[n]
  {
    RunLater(events, states, m, n);
    RunInv(events, states, n);
    assert states[n + 1] == Next(states[n], events[n]);
  }

  /** Ids are never reused: a new call's id was unknown at every earlier moment. */
  lemma IdsNeverReused(events: seq<Event>, states: seq<State>, m: nat, n: nat, id: CallId)
    requires IsRun(events, states) && m <= n < |events|
    requires id in states[n + 1].calls && id !in states[n].calls
    ensures id !in states[m].calls && events[n].MakeCall? && id == states[n].issued + 1
  {
    RunLater(events, states, m, n);
    RunInv(events, states, n);
    RunInv(events, states, n + 1);
    assert states[n + 1] == Next(states[n], events[n]);
    NewCalls(states[n], events[n]);
  }

  lemma NewCalls(s: State, e: Event)
    requires Inv(s) && Enabled(s, e)
    ensures e.MakeCall? || Next(s, e).calls.Keys == s.calls.Keys
    ensures forall id | id in Next(s, e).calls && id !in s.calls :: id == s.issued + 1
  {
    hide Settle, SettleAll;
  }

  /** A cancel frame is the only one of its call, and follows that call's request on the same
      socket unless the request's own sending threw. */
  lemma CancelFollowsRequest(events: seq<Event>, states: seq<State>, n: nat, k: nat)
    requires IsRun(events, states) && n <= |events| && k < |states[n].frames| && states[n].frames[k].Cancel?
    ensures var s := states[n];
            var id := s.frames[k].id;
            && id in s.calls && id !in s.pending
            && (forall j: nat | j < |s.frames| && s.frames[j].id == id && s.frames[j].Cancel? :: j == k)
            && ((exists j: nat :: j < k && s.frames[j] == Request(id, s.frames[k].socket)) <==> s.calls[id].sent)
  {
    RunInv(events, states, n);
    var s := states[n];
    var id := s.frames[k].id;
    if s.calls[id].sent {
      assert Request(id, s.calls[id].socket) in s.frames;
      var j: nat :| j < |s.frames| && s.frames[j] == Request(id, s.calls[id].socket);
      assert j < k;
    }
    forall j: nat | j < |s.frames| && s.frames[j].id == id && s.frames[j].Cancel? ensures j == k {
      FrameOrder(s, j, k);
    }
  }

  /** A cancel without its request happens: the call whose send threw is aborted. */
  lemma CancelWithoutRequest()
    ensures var s := Next(Next(INITIAL, Connect), MakeCall(true, false, false));
            Enabled(s, Abort(1)) && Next(s, Abort(1)).frames == [Cancel(1, 0)]
  {
    var s := Next(Next(INITIAL, Connect), MakeCall(true, false, false));
    assert s.pending == [1] && s.frames == [];
  }

  /** After close, and for ever, nothing is pending, no caller waits, and no call is accepted. */
  lemma NothingAfterClose(events: seq<Event>, states: seq<State>, m: nat, n: nat)
    requires IsRun(events, states) && m < n <= |events| && events[m] == Close
    ensures states[n].pending == [] && !Connected(states[n])
    ensures forall id | id in states[n].calls :: states[n].calls[id].settled && states[n].calls[id].promise.Some?
    ensures n < |events| && events[n].MakeCall? ==> states[n + 1] == states[n]
  {
    RunLater(events, states, m + 1, n);
    RunInv(events, states, n);
    assert states[m + 1] == Next(states[m], events[m]);
    assert states[m + 1].closed;
    var s := states[n];
    assert forall id | id in s.calls :: id in s.pending || s.calls[id].settled;
    if n < |events| {
      assert states[n + 1] == Next(states[n], events[n]);
    }
  }

  // ---------- The bridge itself ----------

  class WebSocketBridge {
    var client: Option<SocketId>
    var open: set<SocketId>
    var sockets: nat
    var closed: bool
    var pending: seq<CallId>
    var issued: nat
    var calls: map<CallId, Call>
    var frames: seq<Frame>
    var history: seq<(CallId, Outcome)>

    ghost function View(): State
      reads this
    {
      State(client, open, sockets, closed, pending, issued, calls, frames, history)
    }

    constructor ()
      ensures View() == INITIAL
    {
      client, open, sockets, closed, pending := None, {}, 0, false, [];
      issued, calls, frames, history := 0, map[], [], [];
    }

    method OnConnection()
      requires Enabled(View(), Connect)
      modifies this
      ensures View() == Next(old(View()), Connect)
    {
      client := Some(sockets);
      open := open + {sockets};
      sockets := sockets + 1;
    }

    method OnSocketClose(socket: SocketId)
      requires Enabled(View(), SocketClosed(socket))
      modifies this
      ensures View() == Next(old(View()), SocketClosed(socket))
    {
      open := open - {socket};
      if client == Some(socket) {
        client := None;
      }
    }

    /** The closure every call registers: resolves once and releases what the call holds. */
    method SettleCall(id: CallId, outcome: Outcome)
      requires id in calls
      modifies this
      ensures View() == Settle(old(View()), id, outcome)
    {
      hide Remove, Fulfil, Release;
      if calls[id].settled {
        return;
      }
      SettleIs(View(), id, outcome);
      hide Settle;
      var call := calls[id].(settled := true);
      pending := Remove(pending, id);
      call := call.(timer := false);
      call := call.(listener := false);
      if call.promise.None? {
        call := call.(promise := Some(outcome));
        history := history + [(id, outcome)];
      }
      assert call == SettledCall(calls[id], outcome);
      calls := calls[id := call];
    }

    /** Reading the id of null throws, out of the listener. */
    method OnMessage(message: Message) returns (threw: bool)
      requires Enabled(View(), Receive(message))
      modifies this
      ensures View() == Next(old(View()), Receive(message))
      ensures threw <==> message == NullText
    {
      if message.Ignored? {
        return false;
      }
      if message.NullText? {
        return true;
      }
      if message.id !in pending {
        return false;
      }
      threw := false;
      SettleCall(message.id, if message.response.Some? then Responded(message.response.value) else Malformed);
    }

    /** None: the call is refused at once, with an error response and no state. */
    method MakeACall(hasSignal: bool, aborted: bool, serializable: bool) returns (id: Option<CallId>)
      requires Enabled(View(), MakeCall(hasSignal, aborted, serializable))
      modifies this
      ensures View() == Next(old(View()), MakeCall(hasSignal, aborted, serializable))
      ensures id.Some? <==> !(hasSignal && aborted) && Connected(old(View()))
      ensures id.Some? ==> id.value == issued && id.value in pending
    {
      if hasSignal && aborted {
        return None;
      }
      if client.None? || client.value !in open {
        return None;
      }
      issued := issued + 1;
      calls := calls[issued := Call(client.value, hasSignal, serializable, false, true, hasSignal, None)];
      pending := pending + [issued];
      if serializable {
        frames := frames + [Request(issued, client.value)];
      } else {
        calls := calls[issued := calls[issued].(promise := Some(SendThrew))];
        history := history + [(issued, SendThrew)];
      }
      return Some(issued);
    }

    method OnAbort(id: CallId)
      requires Enabled(View(), Abort(id))
      modifies this
      ensures View() == Next(old(View()), Abort(id))
    {
      if calls[id].socket in open {
        frames := frames + [Cancel(id, calls[id].socket)];
      }
      SettleCall(id, Canceled);
    }

    method OnTimeout(id: CallId)
      requires Enabled(View(), Timeout(id))
      modifies this
      ensures View() == Next(old(View()), Timeout(id))
    {
      SettleCall(id, TimedOut);
    }

    method CloseBridge()
      requires Enabled(View(), Close)
      modifies this
      ensures View() == Next(old(View()), Close)
    {
      var ids := pending;
      var i := 0;
      while i < |ids|
        invariant 0 <= i <= |ids|
        invariant client == old(client) && forall k: nat | k < |ids| :: ids[k] in calls
        invariant SettleAll(View(), ids[i..]) == SettleAll(old(View()), ids)
      {
        assert ids[i..][0] == ids[i] && ids[i..][1..] == ids[i + 1..];
        SettleCall(ids[i], BridgeClosed);
        i := i + 1;
      }
      assert ids[i..] == [];
      if client.Some? {
        open := open - {client.value};
      }
      closed := true;
    }
  }
}
