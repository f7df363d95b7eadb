/** The closures of src/routes/tunnel.ts as objects: the shared counter map and one session per relay. */
module TunnelRelay {
  import opened Wrappers
  import opened Bits
  import opened TunnelSpec

  class Tunnels {
    var active: Counts

    constructor ()
      ensures active == EMPTY.active
    {
      active := map[];
    }

    /** Admits a connection, or turns it away at the cap; `refused` is the code a client still there is closed with. */
    method Relay(env: string, clientOpen: bool) returns (session: Session?, refused: Option<nat>)
      modifies this
      ensures refused == if session == null && clientOpen then Some(4429) else None
      ensures session == null <==> Get(old(active), env, 0) >= MAX_TUNNELS_PER_ENV
      ensures session == null ==> active == old(active)
      ensures session != null ==>
                fresh(session) && session.tunnels == this &&
                (session.Now(), active) == Admitted(env, clientOpen, old(active))
    {
      var openNow := Get(active, env, 0);
      if openNow >= MAX_TUNNELS_PER_ENV {
        return null, if clientOpen then Some(4429) else None;
      }
      refused := None;
      active := active[env := openNow + 1];
      session := new Session(this, env, clientOpen);
      if !clientOpen {
        session.Cleanup();
        return;
      }
      session.connecting := true;
    }
  }

  class Session {
    const tunnels: Tunnels
    const env: string

    var released: bool
    var pending: seq<Chunk>
    var pendingBytes: nat
    var tcpReady: bool
    var closed: bool
    var connecting: bool

    var received: Chunk
    var destroyed: bool
    var clientOpen: bool
    var closeCode: Option<nat>
    var delivered: Chunk

    ghost var clientSent: Chunk
    ghost var upstreamSent: Chunk

    ghost function Now(): TunnelSpec.Relay
      reads this
    {
      TunnelSpec.Relay(env, pending, pendingBytes, tcpReady, closed, released, connecting,
                       received, destroyed, clientOpen, closeCode, delivered, clientSent, upstreamSent)
    }

    constructor (tunnels: Tunnels, env: string, clientOpen: bool)
      ensures this.tunnels == tunnels && Now() == Fresh(env, clientOpen)
    {
      this.tunnels := tunnels;
      this.env := env;
      released, closed, tcpReady, connecting, destroyed := false, false, false, false, false;
      pending, pendingBytes, received, delivered := [], 0, [], [];
      this.clientOpen, closeCode := clientOpen, None;
      clientSent, upstreamSent := [], [];
    }

    method Release()
      modifies this`released, tunnels
      ensures released
      ensures tunnels.active == if old(released) then old(tunnels.active) else Released(old(tunnels.active), env)
    {
      if released {
        return;
      }
      released := true;
      var next: int := Get(tunnels.active, env, 1) - 1;
      if next <= 0 {
        tunnels.active := tunnels.active - {env};
      } else {
        tunnels.active := tunnels.active[env := next];
      }
    }

    method CloseSocket(code: nat)
      modifies this`clientOpen, this`closeCode
      ensures Now() == CloseClient(old(Now()), code)
    {
      if clientOpen {
        clientOpen, closeCode := false, Some(code);
      }
    }

    method Cleanup()
      modifies this, tunnels
      ensures (Now(), tunnels.active) == TunnelSpec.Cleanup(old(Now()), old(tunnels.active))
    {
      if closed {
        return;
      }
      closed := true;
      Release();
      destroyed := tcpReady;
      CloseSocket(1000);
    }

    /** tcp.write: a destroyed socket takes nothing. */
    method Write(buf: Chunk)
      modifies this`received
      ensures Now() == WriteUpstream(old(Now()), buf)
    {
      if !destroyed {
        received := received + buf;
      }
    }

    /** The client's 'message' event. */
    method OnMessage(buf: Chunk)
      modifies this, tunnels
      ensures (Now(), tunnels.active) == TunnelSpec.OnMessage(old(Now()), old(tunnels.active), buf)
    {
      clientSent := clientSent + buf;
      if tcpReady {
        Write(buf);
        return;
      }
      pendingBytes := pendingBytes + |buf|;
      if pendingBytes > MAX_PENDING_BYTES {
        CloseSocket(4013);
        Cleanup();
        return;
      }
      pending := pending + [buf];
    }

    /** connect() threw. */
    method OnConnectFailed()
      modifies this, tunnels
      ensures (Now(), tunnels.active) == ConnectFailed(old(Now()), old(tunnels.active))
    {
      connecting := false;
      if !closed {
        CloseSocket(4502);
      }
      Cleanup();
    }

    /** connect() answered with a close code instead of a socket. */
    method OnConnectRefused(code: nat)
      modifies this, tunnels
      ensures (Now(), tunnels.active) == ConnectRefused(old(Now()), old(tunnels.active), code)
    {
      connecting := false;
      if !closed {
        CloseSocket(code);
      }
      Cleanup();
    }

    /** Writes the chunks in order. */
    method Flush(chunks: seq<Chunk>)
      requires !destroyed
      modifies this`received
      ensures received == old(received) + Concat(chunks)
    {
      ghost var written: seq<Chunk> := [];
      for k := 0 to |chunks|
        invariant written == chunks[..k]
        invariant received == old(received) + Concat(written)
      {
        Write(chunks[k]);
        assert (written + [chunks[k]])[..|written|] == written;
        assert received == old(received) + (Concat(written) + chunks[k]);
        written := written + [chunks[k]];
      }
      assert written == chunks;
    }

    /** connect() gave a socket: flush the buffer in order, then stream. */
    method OnConnected()
      requires connecting && RelayOk(Now())
      modifies this
      ensures Now() == Connected(old(Now()))
      ensures !connecting && closed == old(closed) && clientOpen == old(clientOpen)
      ensures !closed ==> tcpReady && pending == [] && received == old(received) + Concat(old(pending))
      ensures closed ==> tcpReady == old(tcpReady) && received == old(received)
    {
      connecting := false;
      if closed {
        return;
      }
      tcpReady := true;
      Flush(pending);
      pending := [];
    }

    /** The upstream's 'data' event. */
    method OnUpstreamData(chunk: Chunk)
      modifies this
      ensures Now() == TunnelSpec.OnUpstreamData(old(Now()), chunk)
    {
      upstreamSent := upstreamSent + chunk;
      if clientOpen {
        delivered := delivered + chunk;
      }
    }
  }
}
