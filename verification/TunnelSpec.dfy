/** The tunnel relay of src/routes/tunnel.ts as a machine over its events, and what every run keeps. */
module TunnelSpec {
  import opened Wrappers
  import opened Bits

  const MAX_TUNNELS_PER_ENV: nat := 512
  const MAX_PENDING_BYTES: nat := 4 * 1024 * 1024

  type Chunk = seq<Byte>

  /** One relay: the variables of its closure, both sockets, and what each peer has sent so far. */
  datatype Relay = Relay(
    env: string,
    // closure variables
    pending: seq<Chunk>,
    pendingBytes: nat,
    tcpReady: bool,
    closed: bool,
    released: bool,
    // still awaiting connect()
    connecting: bool,
    // upstream socket: the bytes it was given, and whether it was destroyed
    received: Chunk,
    destroyed: bool,
    // client socket: readyState OPEN, the code it was closed with, the bytes it was given
    clientOpen: bool,
    closeCode: Option<nat>,
    delivered: Chunk,
    // histories
    clientSent: Chunk,
    upstreamSent: Chunk)

  type Counts = map<string, nat>

  function Get(active: Counts, env: string, otherwise: nat): nat {
    if env in active then active[env] else otherwise
  }

  // ----- handlers

  function Released(active: Counts, env: string): Counts {
    var next: int := Get(active, env, 1) - 1;
    if next <= 0 then active - {env} else active[env := next]
  }

  /** `if (socket.readyState === socket.OPEN) socket.close(code)` */
  function CloseClient(r: Relay, code: nat): Relay {
    if r.clientOpen then r.(clientOpen := false, closeCode := Some(code)) else r
  }

  /** A destroyed socket takes no more bytes. */
  function WriteUpstream(r: Relay, buf: Chunk): Relay {
    if r.destroyed then r else r.(received := r.received + buf)
  }

  function Cleanup(r: Relay, active: Counts): (Relay, Counts) {
    if r.closed then (r, active)
    else
      (CloseClient(r.(closed := true, released := true, destroyed := r.tcpReady), 1000),
       if r.released then active else Released(active, r.env))
  }

  function OnMessage(r: Relay, active: Counts, buf: Chunk): (Relay, Counts) {
    var r := r.(clientSent := r.clientSent + buf);
    if r.tcpReady then (WriteUpstream(r, buf), active)
    else
      var r := r.(pendingBytes := r.pendingBytes + |buf|);
      if r.pendingBytes > MAX_PENDING_BYTES then Cleanup(CloseClient(r, 4013), active)
      else (r.(pending := r.pending + [buf]), active)
  }

  function ConnectFailed(r: Relay, active: Counts): (Relay, Counts) {
    var r := r.(connecting := false);
    Cleanup(if r.closed then r else CloseClient(r, 4502), active)
  }

  function ConnectRefused(r: Relay, active: Counts, code: nat): (Relay, Counts) {
    var r := r.(connecting := false);
    Cleanup(if r.closed then r else CloseClient(r, code), active)
  }

  function Concat(chunks: seq<Chunk>): Chunk {
    if chunks == [] then [] else Concat(chunks[..|chunks| - 1]) + chunks[|chunks| - 1]
  }

  function Connected(r: Relay): Relay {
    var r := r.(connecting := false);
    if r.closed then r
    else r.(tcpReady := true, received := r.received + Concat(r.pending), pending := [])
  }

  function OnUpstreamData(r: Relay, chunk: Chunk): Relay {
    var r := r.(upstreamSent := r.upstreamSent + chunk);
    if r.clientOpen then r.(delivered := r.delivered + chunk) else r
  }

  /** A relay as it is set up: the client may already be gone when its handler runs. */
  function Fresh(env: string, clientOpen: bool): Relay {
    Relay(env, [], 0, false, false, false, false, [], false, clientOpen, None, [], [], [])
  }

  function Admitted(env: string, clientOpen: bool, active: Counts): (Relay, Counts) {
    var active := active[env := Get(active, env, 0) + 1];
    if clientOpen then (Fresh(env, true).(connecting := true), active)
    else Cleanup(Fresh(env, false), active)
  }

  // ----- the whole server

  datatype World = World(relays: seq<Relay>, active: Counts)

  datatype Event =
    | Open(env: string, clientOpen: bool)
    | Message(i: nat, buf: Chunk)
    | ClientClosing(i: nat)
    | ClientGone(i: nat)
    | DialFails(i: nat)
    | DialRefused(i: nat, code: nat)
    | DialSucceeds(i: nat)
    | UpstreamData(i: nat, chunk: Chunk)
    | UpstreamGone(i: nat)

  predicate Enabled(w: World, e: Event) {
    match e
    case Open(_, _) => true
    case Message(i, _) => i < |w.relays|
    case ClientClosing(i) => i < |w.relays|
    case ClientGone(i) => i < |w.relays|
    case DialFails(i) => i < |w.relays| && w.relays[i].connecting
    case DialRefused(i, _) => i < |w.relays| && w.relays[i].connecting
    case DialSucceeds(i) => i < |w.relays| && w.relays[i].connecting
    case UpstreamData(i, _) => i < |w.relays| && w.relays[i].tcpReady
    case UpstreamGone(i) => i < |w.relays| && w.relays[i].tcpReady
  }

  /** What an event other than an opening does to its relay. */
  function Handle(r: Relay, active: Counts, e: Event): (Relay, Counts)
    requires !e.Open?
  {
    match e
    case Message(_, buf) => OnMessage(r, active, buf)
    case ClientClosing(_) => (r.(clientOpen := false), active)
    case ClientGone(_) => Cleanup(r.(clientOpen := false), active)
    case DialFails(_) => ConnectFailed(r, active)
    case DialRefused(_, code) => ConnectRefused(r, active, code)
    case DialSucceeds(_) => (Connected(r), active)
    case UpstreamData(_, chunk) => (OnUpstreamData(r, chunk), active)
    case UpstreamGone(_) => Cleanup(r, active)
  }

  function Apply(w: World, e: Event): World
    requires Enabled(w, e)
  {
    match e
    case Open(env, clientOpen) =>
      if Get(w.active, env, 0) >= MAX_TUNNELS_PER_ENV then w
      else
        var (r, active) := Admitted(env, clientOpen, w.active);
        World(w.relays + [r], active)
    case _ =>
      var (r, active) := Handle(w.relays[e.i], w.active, e);
      World(w.relays[e.i := r], active)
  }

  ghost predicate Runs(w: World, es: seq<Event>)
    decreases |es|
  {
    es == [] || (Enabled(w, es[0]) && Runs(Apply(w, es[0]), es[1..]))
  }

  ghost function After(w: World, es: seq<Event>): World
    requires Runs(w, es)
    decreases |es|
  {
    if es == [] then w else After(Apply(w, es[0]), es[1..])
  }

  const EMPTY := World([], map[])

  // ----- one relay

  predicate RelayOk(r: Relay) {
    && r.closed == r.released
    && r.destroyed == (r.closed && r.tcpReady)
    && (r.connecting ==> !r.tcpReady)
    && (r.closed || r.connecting || r.tcpReady)
    && (!r.tcpReady ==> r.received == [])
    && (r.tcpReady ==> r.pending == [] && r.received <= r.clientSent)
    && (r.tcpReady && !r.closed ==> r.received == r.clientSent)
    && (!r.tcpReady && !r.closed ==>
          Concat(r.pending) == r.clientSent && r.pendingBytes == |r.clientSent| <= MAX_PENDING_BYTES)
    && r.delivered <= r.upstreamSent
    && (r.clientOpen ==> r.delivered == r.upstreamSent)
    && (r.closeCode.Some? ==> !r.clientOpen)
    && (r.closed ==> !r.clientOpen)
  }

  lemma MessageKeepsRelay(r: Relay, active: Counts, buf: Chunk)
    requires RelayOk(r)
    ensures RelayOk(OnMessage(r, active, buf).0)
  {
    if !r.tcpReady {
      assert (r.pending + [buf])[..|r.pending|] == r.pending;
    } else if r.destroyed {
      assert r.clientSent <= r.clientSent + buf;
    }
  }

  lemma ConnectedKeepsRelay(r: Relay)
    requires RelayOk(r) && r.connecting
    ensures RelayOk(Connected(r))
  {
    if !r.closed {
      assert [] + Concat(r.pending) == r.clientSent;
    }
  }

  lemma DataKeepsRelay(r: Relay, chunk: Chunk)
    requires RelayOk(r)
    ensures RelayOk(OnUpstreamData(r, chunk))
  {
    assert r.upstreamSent <= r.upstreamSent + chunk;
  }

  lemma HandleKeepsRelay(r: Relay, active: Counts, e: Event)
    requires RelayOk(r) && !e.Open?
    requires e.DialFails? || e.DialRefused? || e.DialSucceeds? ==> r.connecting
    ensures RelayOk(Handle(r, active, e).0)
  {
    match e
    case Message(_, buf) => MessageKeepsRelay(r, active, buf);
    case DialSucceeds(_) => ConnectedKeepsRelay(r);
    case UpstreamData(_, chunk) => DataKeepsRelay(r, chunk);
    case _ =>
  }

  lemma HandleNeverReopens(r: Relay, active: Counts, e: Event)
    requires RelayOk(r) && !e.Open?
    ensures Handle(r, active, e).0.env == r.env
    ensures r.closed ==> Handle(r, active, e).0.closed
  {
  }

  lemma HandleReleases(r: Relay, active: Counts, e: Event)
    requires RelayOk(r) && !e.Open?
    ensures var r' := Handle(r, active, e);
            r'.1 == if r'.0.closed && !r.closed then Released(active, r.env) else active
  {
  }

  /** A handler closes its own relay at most, and gives back a slot exactly when it does. */
  lemma HandleCounts(r: Relay, active: Counts, e: Event)
    requires RelayOk(r) && !e.Open?
    ensures var r' := Handle(r, active, e);
            && r'.0.env == r.env
            && (r.closed ==> r'.0.closed)
            && r'.1 == if r'.0.closed && !r.closed then Released(active, r.env) else active
  {
    HandleNeverReopens(r, active, e);
    HandleReleases(r, active, e);
  }

  /** Once closed, a relay's upstream gets nothing more and its close code is final. */
  lemma HandleKeepsClosed(r: Relay, active: Counts, e: Event)
    requires RelayOk(r) && !e.Open?
    requires e.DialFails? || e.DialRefused? || e.DialSucceeds? ==> r.connecting
    ensures r.closed ==> Handle(r, active, e).0.closed && Handle(r, active, e).0.received == r.received
    ensures r.closed ==> Handle(r, active, e).0.tcpReady == r.tcpReady
    ensures r.closeCode.Some? ==> Handle(r, active, e).0.closeCode == r.closeCode
  {
  }

  /** What an open client is told: the reason that closes it, and 1000 only when there is no other. */
  lemma ClientIsToldWhy(r: Relay, active: Counts, e: Event)
    requires RelayOk(r) && !e.Open? && r.clientOpen
    requires e.DialFails? || e.DialRefused? || e.DialSucceeds? ==> r.connecting
    ensures var r' := Handle(r, active, e).0;
            && (r'.closeCode == Some(4013) && !e.DialRefused? <==>
                  e.Message? && !r.tcpReady && |r.clientSent| + |e.buf| > MAX_PENDING_BYTES)
            && (e.DialFails? ==> r'.closeCode == Some(4502))
            && (e.DialRefused? ==> r'.closeCode == Some(e.code))
            && (r'.closeCode == Some(1000) && !e.DialRefused? <==> e.UpstreamGone?)
            && (r'.closeCode.Some? ==> r'.closed)
  {
  }

  // ----- the counter

  predicate Counted(r: Relay, env: string) {
    !r.closed && r.env == env
  }

  /** The admitted relays of the environment that are not cleaned up. */
  function OpenCount(relays: seq<Relay>, env: string): nat {
    if relays == [] then 0
    else OpenCount(relays[..|relays| - 1], env) + if Counted(relays[|relays| - 1], env) then 1 else 0
  }

  lemma {:induction false} CountUpdate(relays: seq<Relay>, i: nat, r: Relay, env: string)
    requires i < |relays|
    ensures OpenCount(relays[i := r], env) ==
            OpenCount(relays, env) - (if Counted(relays[i], env) then 1 else 0) + if Counted(r, env) then 1 else 0
    ensures Counted(relays[i], env) ==> OpenCount(relays, env) > 0
  {
    var n := |relays| - 1;
    if i == n {
      assert relays[i := r][..n] == relays[..n];
    } else {
      assert relays[i := r][..n] == relays[..n][i := r];
      CountUpdate(relays[..n], i, r, env);
    }
  }

  lemma CountAppend(relays: seq<Relay>, r: Relay, env: string)
    ensures OpenCount(relays + [r], env) == OpenCount(relays, env) + if Counted(r, env) then 1 else 0
  {
    assert (relays + [r])[..|relays|] == relays;
  }

  /** The counter of an environment is its open relays: present exactly when positive, never over the cap. */
  predicate CountOk(w: World, env: string) {
    && Get(w.active, env, 0) == OpenCount(w.relays, env) <= MAX_TUNNELS_PER_ENV
    && (env in w.active <==> OpenCount(w.relays, env) > 0)
  }

  ghost predicate WorldOk(w: World) {
    && (forall i :: 0 <= i < |w.relays| ==> RelayOk(w.relays[i]))
    && (forall env :: CountOk(w, env))
  }

  lemma OpenKeeps(w: World, env: string, clientOpen: bool)
    requires WorldOk(w)
    ensures WorldOk(Apply(w, Open(env, clientOpen)))
  {
    var w' := Apply(w, Open(env, clientOpen));
    assert CountOk(w, env);
    if Get(w.active, env, 0) < MAX_TUNNELS_PER_ENV {
      var (r, active) := Admitted(env, clientOpen, w.active);
      AdmittedOk(env, clientOpen, w.active);
      forall other ensures CountOk(w', other) {
        assert CountOk(w, other);
        CountAppend(w.relays, r, other);
      }
    }
  }

  /** An admitted relay counts, unless its client was gone already. */
  lemma AdmittedOk(env: string, clientOpen: bool, active: Counts)
    ensures var a := Admitted(env, clientOpen, active);
            && RelayOk(a.0) && a.0.env == env && a.0.closed == !clientOpen
            && (clientOpen ==> a.1 == active[env := Get(active, env, 0) + 1])
            && (!clientOpen ==> Get(a.1, env, 0) == Get(active, env, 0) && (env in a.1 <==> Get(active, env, 0) > 0))
            && (forall other :: other != env ==> Get(a.1, other, 0) == Get(active, other, 0) && (other in a.1 <==> other in active))
  {
  }

  lemma HandleKeeps(w: World, e: Event)
    requires WorldOk(w) && Enabled(w, e) && !e.Open?
    ensures WorldOk(Apply(w, e))
  {
    HandleKeepsRelay(w.relays[e.i], w.active, e);
    forall env ensures CountOk(Apply(w, e), env) {
      HandleKeepsCount(w, e, env);
    }
  }

  lemma HandleKeepsCount(w: World, e: Event, env: string)
    requires WorldOk(w) && Enabled(w, e) && !e.Open?
    ensures CountOk(Apply(w, e), env)
  {
    var r := w.relays[e.i];
    HandleCounts(r, w.active, e);
    assert CountOk(w, r.env) && CountOk(w, env);
    CountUpdate(w.relays, e.i, Apply(w, e).relays[e.i], env);
  }

  // ----- runs

  lemma StepKeeps(w: World, e: Event)
    requires WorldOk(w) && Enabled(w, e)
    ensures WorldOk(Apply(w, e))
  {
    if e.Open? {
      OpenKeeps(w, e.env, e.clientOpen);
    } else {
      HandleKeeps(w, e);
    }
  }

  lemma {:induction false} RunKeeps(w: World, es: seq<Event>)
    requires WorldOk(w) && Runs(w, es)
    ensures WorldOk(After(w, es))
    decreases |es|
  {
    if es != [] {
      StepKeeps(w, es[0]);
      RunKeeps(Apply(w, es[0]), es[1..]);
    }
  }

  /**
   * In every run the upstream of an open relay has received exactly what its client sent, in
   * order; before the dial succeeds that is what is buffered, at most 4 MiB; and the client of
   * an open socket has received exactly what the upstream sent.
   */
  lemma BytesInAreBytesOut(es: seq<Event>, i: nat)
    requires Runs(EMPTY, es) && i < |After(EMPTY, es).relays|
    ensures var r := After(EMPTY, es).relays[i];
            && (!r.closed && r.tcpReady ==> r.received == r.clientSent)
            && (!r.closed && !r.tcpReady ==>
                  r.received == [] && Concat(r.pending) == r.clientSent && |r.clientSent| <= 4_194_304)
            && r.received <= r.clientSent
            && (r.clientOpen ==> r.delivered == r.upstreamSent)
            && r.delivered <= r.upstreamSent
  {
    EmptyOk();
    RunKeeps(EMPTY, es);
  }

  lemma EmptyOk()
    ensures WorldOk(EMPTY)
  {
    assert forall env :: CountOk(EMPTY, env);
  }

  /** In every run the counters are exactly the open relays, with no zero entry and never over 512. */
  lemma CountersAreOpenRelays(es: seq<Event>, env: string)
    requires Runs(EMPTY, es)
    ensures var w := After(EMPTY, es);
            && Get(w.active, env, 0) == OpenCount(w.relays, env) <= 512
            && (env in w.active <==> OpenCount(w.relays, env) > 0)
            && (env in w.active ==> w.active[env] > 0)
  {
    EmptyOk();
    RunKeeps(EMPTY, es);
    assert CountOk(After(EMPTY, es), env);
  }

  /** A connection is turned away exactly when its environment has 512 open relays. */
  lemma AdmittedIffBelowCap(es: seq<Event>, env: string, clientOpen: bool)
    requires Runs(EMPTY, es)
    ensures var w := After(EMPTY, es);
            |Apply(w, Open(env, clientOpen)).relays| == |w.relays| + 1 <==> OpenCount(w.relays, env) < 512
  {
    CountersAreOpenRelays(es, env);
  }

  /** After its cleanup nothing reaches a relay's upstream, whatever happens next, and it never reopens. */
  lemma {:induction false} ClosedStaysSilent(w: World, es: seq<Event>, i: nat)
    requires WorldOk(w) && Runs(w, es) && i < |w.relays| && w.relays[i].closed
    ensures var r := w.relays[i];
            && i < |After(w, es).relays|
            && var r' := After(w, es).relays[i];
               r'.closed && r'.received == r.received && r'.tcpReady == r.tcpReady
    decreases |es|
  {
    if es != [] {
      var e := es[0];
      StepKeeps(w, e);
      if !e.Open? {
        HandleKeepsClosed(w.relays[e.i], w.active, e);
      }
      ClosedStaysSilent(Apply(w, e), es[1..], i);
    }
  }

  /** A close code, once sent, is never replaced. */
  lemma {:induction false} CloseCodeIsFinal(w: World, es: seq<Event>, i: nat)
    requires WorldOk(w) && Runs(w, es) && i < |w.relays| && w.relays[i].closeCode.Some?
    ensures i < |After(w, es).relays| && After(w, es).relays[i].closeCode == w.relays[i].closeCode
    decreases |es|
  {
    if es != [] {
      var e := es[0];
      StepKeeps(w, e);
      if !e.Open? {
        HandleKeepsClosed(w.relays[e.i], w.active, e);
      }
      CloseCodeIsFinal(Apply(w, e), es[1..], i);
    }
  }

  /** A client that overflows the buffer, or leaves, before the dial succeeds: its upstream never gets a byte. */
  lemma EarlyCloseWritesNothing(w: World, e: Event, es: seq<Event>)
    requires WorldOk(w) && Enabled(w, e) && Runs(Apply(w, e), es)
    requires e.Message? || e.ClientGone?
    requires !w.relays[e.i].closed && !w.relays[e.i].tcpReady
    requires e.Message? ==> |w.relays[e.i].clientSent| + |e.buf| > MAX_PENDING_BYTES
    ensures e.i < |After(Apply(w, e), es).relays|
    ensures After(Apply(w, e), es).relays[e.i].closed && After(Apply(w, e), es).relays[e.i].received == []
    ensures e.Message? && w.relays[e.i].clientOpen ==> Apply(w, e).relays[e.i].closeCode == Some(4013)
  {
    StepKeeps(w, e);
    ClosedStaysSilent(Apply(w, e), es, e.i);
  }

  // ----- the way of the bytes, event by event

  /** A successful dial of a relay that is not closed delivers everything sent so far and empties the buffer. */
  lemma DialDelivers(es: seq<Event>, i: nat)
    requires Runs(EMPTY, es) && Enabled(After(EMPTY, es), DialSucceeds(i)) && !After(EMPTY, es).relays[i].closed
    ensures var r, r' := After(EMPTY, es).relays[i], Apply(After(EMPTY, es), DialSucceeds(i)).relays[i];
            && r'.tcpReady && !r'.connecting && !r'.closed && !r'.destroyed && r'.pending == []
            && r'.received == r'.clientSent == r.clientSent
            && r'.clientOpen == r.clientOpen && r'.closeCode == r.closeCode && r'.delivered == r.delivered
  {
    EmptyOk();
    RunKeeps(EMPTY, es);
    ConnectedKeepsRelay(After(EMPTY, es).relays[i]);
  }

  /** From then on every message reaches the upstream at once, and before it is kept until the buffer is full. */
  lemma MessageIsDeliveredOrKept(es: seq<Event>, i: nat, buf: Chunk)
    requires Runs(EMPTY, es) && i < |After(EMPTY, es).relays| && !After(EMPTY, es).relays[i].closed
    ensures var r, r' := After(EMPTY, es).relays[i], Apply(After(EMPTY, es), Message(i, buf)).relays[i];
            && r'.clientSent == r.clientSent + buf
            && (r.tcpReady ==> !r'.closed && r'.received == r.received + buf && r'.clientOpen == r.clientOpen)
            && (!r.tcpReady && |r.clientSent| + |buf| <= 4_194_304 ==>
                  !r'.closed && r'.connecting && r'.pending == r.pending + [buf] && r'.clientOpen == r.clientOpen)
            && (!r.tcpReady && |r.clientSent| + |buf| > 4_194_304 ==> r'.closed && !r'.clientOpen && r'.received == [])
  {
    EmptyOk();
    RunKeeps(EMPTY, es);
  }

  /** What the upstream sends reaches a client that is open, at once. */
  lemma DataReachesClient(es: seq<Event>, i: nat, chunk: Chunk)
    requires Runs(EMPTY, es) && Enabled(After(EMPTY, es), UpstreamData(i, chunk))
    ensures var r, r' := After(EMPTY, es).relays[i], Apply(After(EMPTY, es), UpstreamData(i, chunk)).relays[i];
            && r'.upstreamSent == r.upstreamSent + chunk
            && r'.delivered == (if r.clientOpen then r.delivered + chunk else r.delivered)
            && r'.clientOpen == r.clientOpen && r'.closed == r.closed && r'.received == r.received
  {
  }

  /** The events that end an open relay, exactly, whatever their order. */
  lemma EndsExactly(es: seq<Event>, e: Event)
    requires Runs(EMPTY, es) && Enabled(After(EMPTY, es), e) && !e.Open? && !After(EMPTY, es).relays[e.i].closed
    ensures var r, r' := After(EMPTY, es).relays[e.i], Apply(After(EMPTY, es), e).relays[e.i];
            && (r'.closed <==>
                  || e.ClientGone? || e.DialFails? || e.DialRefused? || e.UpstreamGone?
                  || (e.Message? && !r.tcpReady && |r.clientSent| + |e.buf| > 4_194_304))
            && (r'.closed ==> !r'.clientOpen && r'.destroyed == r.tcpReady && r'.received == r.received)
  {
    EmptyOk();
    RunKeeps(EMPTY, es);
  }

  /** A dial ends once, with whatever answer, and its relay is connected, closed or was closed before. */
  lemma DialEnds(es: seq<Event>, e: Event)
    requires Runs(EMPTY, es) && Enabled(After(EMPTY, es), e) && (e.DialSucceeds? || e.DialFails? || e.DialRefused?)
    ensures var r, r' := After(EMPTY, es).relays[e.i], Apply(After(EMPTY, es), e).relays[e.i];
            && r.connecting && !r'.connecting
            && (r'.closed <==> r.closed || !e.DialSucceeds?) && (r'.tcpReady <==> !r.closed && e.DialSucceeds?)
  {
    EmptyOk();
    RunKeeps(EMPTY, es);
  }

  /** An admitted relay is dialling unless its client was gone already, with nothing sent or received. */
  lemma AdmittedIsDialling(es: seq<Event>, env: string, clientOpen: bool)
    requires Runs(EMPTY, es) && OpenCount(After(EMPTY, es).relays, env) < 512
    ensures var w, w' := After(EMPTY, es), Apply(After(EMPTY, es), Open(env, clientOpen));
            && |w'.relays| == |w.relays| + 1 && w'.relays[..|w.relays|] == w.relays
            && var r := w'.relays[|w.relays|];
               && r.env == env && r.connecting == clientOpen && r.closed == !clientOpen && r.clientOpen == clientOpen
               && !r.tcpReady && r.pending == [] && r.received == [] && r.clientSent == [] && r.closeCode == None
  {
    CountersAreOpenRelays(es, env);
  }

  predicate Ready(w: World, i: nat) {
    i < |w.relays| && w.relays[i].tcpReady
  }

  lemma ReadyDelta(w: World, e: Event, i: nat)
    requires WorldOk(w) && Enabled(w, e) && i < |Apply(w, e).relays| && !Apply(w, e).relays[i].closed
    ensures Ready(Apply(w, e), i) <==> Ready(w, i) || e == DialSucceeds(i)
    ensures i < |w.relays| ==> !w.relays[i].closed
  {
    if !e.Open? {
      HandleNeverReopens(w.relays[e.i], w.active, e);
    }
  }

  lemma {:induction false} ReadyAlong(w: World, es: seq<Event>, i: nat)
    requires WorldOk(w) && Runs(w, es) && i < |After(w, es).relays| && !After(w, es).relays[i].closed
    ensures Ready(After(w, es), i) <==> Ready(w, i) || DialSucceeds(i) in es
    ensures i < |w.relays| ==> !w.relays[i].closed
    decreases |es|
  {
    if es != [] {
      var w' := Apply(w, es[0]);
      StepKeeps(w, es[0]);
      ReadyAlong(w', es[1..], i);
      if i < |w'.relays| {
        ReadyDelta(w, es[0], i);
      }
      assert es == [es[0]] + es[1..];
    }
  }

  /** In every run a relay that is not closed streams if and only if its dial has succeeded, and is dialling otherwise. */
  lemma ReadyIffDialled(es: seq<Event>, i: nat)
    requires Runs(EMPTY, es) && i < |After(EMPTY, es).relays| && !After(EMPTY, es).relays[i].closed
    ensures After(EMPTY, es).relays[i].tcpReady <==> DialSucceeds(i) in es
    ensures After(EMPTY, es).relays[i].connecting <==> DialSucceeds(i) !in es
  {
    EmptyOk();
    RunKeeps(EMPTY, es);
    ReadyAlong(EMPTY, es, i);
  }
}
