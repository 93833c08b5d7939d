/** A local SOCKS4/4a listener that forwards each connection through a SOCKS4a or SOCKS5 proxy. */
module Relay {
  import opened Sequences
  import opened Bytes
  import Cidr

  /**
   * One side of a connection: the bytes not yet read, the bytes written, how many more writes
   * succeed, and how much of the first failing write still gets through.
   */
  datatype Wire = Wire(incoming: seq<byte>, sent: seq<byte>, writes: nat, partial: nat)

  function TakeUpTo(s: seq<byte>, n: nat): seq<byte> {
    if |s| <= n then s else s[..n]
  }

  function Put(w: Wire, data: seq<byte>): (Wire, bool) {
    if w.writes == 0 then (w.(sent := w.sent + TakeUpTo(data, w.partial), partial := 0), false)
    else (w.(sent := w.sent + data, writes := w.writes - 1), true)
  }

  /** Read exactly n bytes; a stream that ends early is used up. */
  function Get(w: Wire, n: nat): (Wire, Option<seq<byte>>) {
    if |w.incoming| < n then (w.(incoming := []), None)
    else (w.(incoming := w.incoming[n..]), Some(w.incoming[..n]))
  }

  function NullAt(s: seq<byte>): (i: nat)
    ensures i <= |s| && (i < |s| ==> s[i] == 0)
    ensures forall j :: 0 <= j < i ==> s[j] != 0
  {
    if s == [] || s[0] == 0 then 0 else 1 + NullAt(s[1..])
  }

  /** The bytes up to the first zero byte, which is consumed too. */
  function GetUntilNull(w: Wire): (Wire, Option<seq<byte>>) {
    var i := NullAt(w.incoming);
    if i == |w.incoming| then (w.(incoming := []), None)
    else (w.(incoming := w.incoming[i + 1..]), Some(w.incoming[..i]))
  }

  /** A connection as the code uses it. */
  class Conn {
    var incoming: seq<byte>
    var sent: seq<byte>
    var writes: nat
    var partial: nat

    constructor (w: Wire)
      ensures View() == w
    {
      incoming, sent, writes, partial := w.incoming, w.sent, w.writes, w.partial;
    }

    ghost function View(): Wire
      reads this
    {
      Wire(incoming, sent, writes, partial)
    }

    method Write(data: seq<byte>) returns (ok: bool)
      modifies this
      ensures (View(), ok) == Put(old(View()), data)
    {
      ok := writes > 0;
      if ok {
        sent, writes := sent + data, writes - 1;
      } else {
        sent, partial := sent + TakeUpTo(data, partial), 0;
      }
    }

    method ReadFull(n: nat) returns (data: Option<seq<byte>>)
      modifies this
      ensures (View(), data) == Get(old(View()), n)
    {
      if |incoming| < n {
        incoming := [];
        data := None;
      } else {
        data := Some(incoming[..n]);
        incoming := incoming[n..];
      }
    }

    method ReadUntilNull() returns (ok: bool)
      modifies this
      ensures View() == GetUntilNull(old(View())).0
      ensures ok == GetUntilNull(old(View())).1.Some?
    {
      ghost var all := incoming;
      ghost var k: nat := 0;
      while true
        invariant k <= NullAt(all) && incoming == all[k..]
        invariant sent == old(sent) && writes == old(writes) && partial == old(partial)
        decreases |incoming|
      {
        var b := ReadFull(1);
        if b.None? {
          return false;
        }
        assert b.value[0] == all[k];
        if b.value[0] == 0 {
          return true;
        }
        k := k + 1;
      }
    }

    method ReadStringUntilNull() returns (text: Option<seq<byte>>)
      modifies this
      ensures (View(), text) == GetUntilNull(old(View()))
    {
      ghost var all := incoming;
      var out: seq<byte> := [];
      while true
        invariant |out| <= NullAt(all) && out == all[..|out|] && incoming == all[|out|..]
        invariant sent == old(sent) && writes == old(writes) && partial == old(partial)
        decreases |incoming|
      {
        var b := ReadFull(1);
        if b.None? {
          return None;
        }
        assert b.value[0] == all[|out|];
        if b.value[0] == 0 {
          return Some(out);
        }
        out := out + [b.value[0]];
      }
    }
  }

  datatype Error = Broken | NotSocks5 | NoMethod | LoginRequired | LoginFailed | Rejected(code: byte)

  /** None is success. */
  type Outcome = Option<Error>

  function Greeting(user: seq<byte>): seq<byte> {
    if user != [] then [5, 2, 0, 2] else [5, 1, 0]
  }

  /** The username/password message; the length bytes are truncated lengths. */
  function LoginMessage(user: seq<byte>, pass: seq<byte>): seq<byte> {
    [1, |user| % 256] + user + [|pass| % 256] + pass
  }

  function Socks5Request(host: seq<byte>, port: nat): seq<byte> {
    [5, 1, 0, 3, |host| % 256] + host + PortBytes(port)
  }

  /** The sub-negotiation that a chosen method asks for. */
  function Negotiated(w: Wire, chosen: byte, user: seq<byte>, pass: seq<byte>): (Wire, Outcome) {
    if chosen == 255 then (w, Some(NoMethod))
    else if chosen == 2 then
      if user == [] then (w, Some(LoginRequired))
      else
        var (w1, ok) := Put(w, LoginMessage(user, pass));
        if !ok then (w1, Some(Broken))
        else
          var (w2, answer) := Get(w1, 2);
          if answer.None? then (w2, Some(Broken))
          else (w2, if answer.value[1] != 0 then Some(LoginFailed) else None)
    else (w, None)
  }

  /** The bound address is drained by its type; read errors there are ignored. */
  function Drained(w: Wire, addressType: byte): Wire {
    if addressType == 1 then Get(w, 6).0
    else if addressType == 4 then Get(w, 18).0
    else if addressType == 3 then
      var (w1, len) := Get(w, 1);
      var n: nat := if len.Some? then len.value[0] else 0;
      Get(w1, n + 2).0
    else w
  }

  function Requested(w: Wire, host: seq<byte>, port: nat): (Wire, Outcome) {
    var (w1, ok) := Put(w, Socks5Request(host, port));
    if !ok then (w1, Some(Broken))
    else
      var (w2, head) := Get(w1, 4);
      if head.None? then (w2, Some(Broken))
      else if head.value[1] != 0 then (w2, Some(Rejected(head.value[1])))
      else (Drained(w2, head.value[3]), None)
  }

  function Socks5(w: Wire, host: seq<byte>, port: nat, user: seq<byte>, pass: seq<byte>): (Wire, Outcome) {
    var (w1, ok) := Put(w, Greeting(user));
    if !ok then (w1, Some(Broken))
    else
      var (w2, choice) := Get(w1, 2);
      if choice.None? then (w2, Some(Broken))
      else if choice.value[0] != 5 then (w2, Some(NotSocks5))
      else
        var (w3, e) := Negotiated(w2, choice.value[1], user, pass);
        if e.Some? then (w3, e) else Requested(w3, host, port)
  }

  /** The request and its reply, after the greeting. */
  method Socks5Ask(conn: Conn, host: seq<byte>, port: nat) returns (e: Outcome)
    modifies conn
    ensures (conn.View(), e) == Requested(old(conn.View()), host, port)
  {
    var req: seq<byte> := [5, 1, 0, 3, |host| % 256];
    req := req + host;
    req := req + [port / 256 % 256, port % 256];
    var ok := conn.Write(req);
    if !ok { return Some(Broken); }
    var hdr := conn.ReadFull(4);
    if hdr.None? { return Some(Broken); }
    if hdr.value[1] != 0 { return Some(Rejected(hdr.value[1])); }
    match hdr.value[3] {
      case 1 => var _ := conn.ReadFull(6);
      case 3 =>
        var len := conn.ReadFull(1);
        var n: nat := if len.Some? then len.value[0] else 0;
        var _ := conn.ReadFull(n + 2);
      case 4 => var _ := conn.ReadFull(18);
      case _ =>
    }
    e := None;
  }

  method Socks5Connect(conn: Conn, host: seq<byte>, port: nat, user: seq<byte>, pass: seq<byte>) returns (e: Outcome)
    modifies conn
    ensures (conn.View(), e) == Socks5(old(conn.View()), host, port, user, pass)
  {
    var greeting: seq<byte> := if user != [] then [5, 2, 0, 2] else [5, 1, 0];
    var ok := conn.Write(greeting);
    if !ok { return Some(Broken); }
    var resp := conn.ReadFull(2);
    if resp.None? { return Some(Broken); }
    if resp.value[0] != 5 { return Some(NotSocks5); }
    if resp.value[1] == 255 {
      return Some(NoMethod);
    } else if resp.value[1] == 2 {
      if user == [] { return Some(LoginRequired); }
      var msg: seq<byte> := [1, |user| % 256] + user;
      msg := msg + [|pass| % 256];
      msg := msg + pass;
      assert msg == LoginMessage(user, pass);
      ok := conn.Write(msg);
      if !ok { return Some(Broken); }
      var answer := conn.ReadFull(2);
      if answer.None? { return Some(Broken); }
      if answer.value[1] != 0 { return Some(LoginFailed); }
    }
    e := Socks5Ask(conn, host, port);
  }

  function Socks4aRequest(host: seq<byte>, port: nat): seq<byte> {
    [4, 1] + PortBytes(port) + [0, 0, 0, 1, 0] + host + [0]
  }

  function Socks4a(w: Wire, host: seq<byte>, port: nat): (Wire, Outcome) {
    var (w1, ok) := Put(w, Socks4aRequest(host, port));
    if !ok then (w1, Some(Broken))
    else
      var (w2, resp) := Get(w1, 8);
      if resp.None? then (w2, Some(Broken))
      else (w2, if resp.value[1] != 0x5A then Some(Rejected(resp.value[1])) else None)
  }

  method Socks4aConnect(conn: Conn, host: seq<byte>, port: nat) returns (e: Outcome)
    modifies conn
    ensures (conn.View(), e) == Socks4a(old(conn.View()), host, port)
  {
    var req: seq<byte> := [4, 1, port / 256 % 256, port % 256, 0, 0, 0, 1, 0];
    req := req + host;
    req := req + [0];
    assert req == Socks4aRequest(host, port);
    var ok := conn.Write(req);
    if !ok { return Some(Broken); }
    var resp := conn.ReadFull(8);
    if resp.None? { return Some(Broken); }
    if resp.value[1] != 0x5A { return Some(Rejected(resp.value[1])); }
    e := None;
  }

  /** The proxy behind the relay. */
  datatype Upstream = Upstream(socks5: bool, user: seq<byte>, pass: seq<byte>)

  function Socks4Reply(code: byte, port: nat, ip: seq<byte>): seq<byte> {
    [0, code] + PortBytes(port) + ip
  }

  /** A client request as read: the target and the address field it came with. */
  datatype Request = Request(host: seq<byte>, port: nat, ip: seq<byte>)

  /** Read one SOCKS4 or SOCKS4a CONNECT request. */
  function ReadRequest(w: Wire): (Wire, Option<Request>) {
    var (w1, hdr) := Get(w, 8);
    if hdr.None? || hdr.value[0] != 4 || hdr.value[1] != 1 then (w1, None)
    else
      var port, ip := PortFrom(hdr.value[2], hdr.value[3]), hdr.value[4..8];
      var (w2, id) := GetUntilNull(w1);
      if id.None? then (w2, None)
      else if ip[0] == 0 && ip[1] == 0 && ip[2] == 0 && ip[3] != 0 then
        var (w3, host) := GetUntilNull(w2);
        if host.None? then (w3, None) else (w3, Some(Request(host.value, port, ip)))
      else (w2, Some(Request(Ascii(Cidr.Dotted(ip)), port, ip)))
  }

  function Connect(w: Wire, px: Upstream, host: seq<byte>, port: nat): (Wire, Outcome) {
    if px.socks5 then Socks5(w, host, port, px.user, px.pass) else Socks4a(w, host, port)
  }

  /** What one connection does to the client's and the proxy's side; `tunnel` when they get spliced. */
  datatype Handled = Handled(client: Wire, upstream: Wire, tunnel: bool)

  function Handle(client: Wire, upstream: Wire, dialled: bool, px: Upstream): Handled {
    var (c1, req) := ReadRequest(client);
    if req.None? || !dialled then Handled(c1, upstream, false)
    else
      var (u1, e) := Connect(upstream, px, req.value.host, req.value.port);
      if e.Some? then Handled(c1, u1, false)
      else
        var (c2, ok) := Put(c1, Socks4Reply(0x5A, req.value.port, req.value.ip));
        Handled(c2, u1, ok)
  }

  method HandleClient(client: Conn, upstream: Conn, dialled: bool, px: Upstream) returns (tunnel: bool)
    requires client != upstream
    modifies client, upstream
    ensures Handled(client.View(), upstream.View(), tunnel) ==
            Handle(old(client.View()), old(upstream.View()), dialled, px)
  {
    var hdr := client.ReadFull(8);
    if hdr.None? { return false; }
    if hdr.value[0] != 4 || hdr.value[1] != 1 { return false; }
    var dstPort := PortFrom(hdr.value[2], hdr.value[3]);
    var ip := hdr.value[4..8];
    var ok := client.ReadUntilNull();
    if !ok { return false; }
    var dstHost: seq<byte>;
    if ip[0] == 0 && ip[1] == 0 && ip[2] == 0 && ip[3] != 0 {
      var host := client.ReadStringUntilNull();
      if host.None? { return false; }
      dstHost := host.value;
    } else {
      dstHost := Ascii(Cidr.Dotted(ip));
    }
    if !dialled { return false; }
    var e: Outcome;
    if px.socks5 {
      e := Socks5Connect(upstream, dstHost, dstPort, px.user, px.pass);
    } else {
      e := Socks4aConnect(upstream, dstHost, dstPort);
    }
    if e.Some? { return false; }
    tunnel := client.Write(Socks4Reply(0x5A, dstPort, ip));
  }
}
