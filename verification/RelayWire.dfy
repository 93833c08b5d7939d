/** The relay's bytes against independent readers of the protocols, and what each side may see. */
module RelayWire {
  import opened Sequences
  import opened Bytes
  import opened Relay
  import Cidr
  import Text

  lemma NullAtEnd(s: seq<byte>, rest: seq<byte>)
    requires 0 !in s
    ensures NullAt(s + [0] + rest) == |s|
  {
    var all := s + [0] + rest;
    assert forall j :: 0 <= j < |s| ==> all[j] == s[j];
    assert all[|s|] == 0;
  }

  /** The empty user id is one zero byte. */
  lemma EmptyId(w: Wire, host: seq<byte>, rest: seq<byte>)
    ensures GetUntilNull(w.(incoming := [0] + host + [0] + rest)) == (w.(incoming := host + [0] + rest), Some([]))
  {
    var s := [0] + host + [0] + rest;
    assert NullAt(s) == 0;
    assert s[1..] == host + [0] + rest;
  }

  /** The host is read whole exactly when it has no zero byte. */
  lemma HostEnds(w: Wire, host: seq<byte>, rest: seq<byte>)
    requires w.incoming == host + [0] + rest
    ensures GetUntilNull(w) == (w.(incoming := rest), Some(host)) <==> 0 !in host
    ensures GetUntilNull(w).1.Some?
  {
    if 0 !in host {
      NullAtEnd(host, rest);
      assert w.incoming[..|host|] == host && w.incoming[|host| + 1..] == rest;
    } else {
      var j :| 0 <= j < |host| && host[j] == 0;
      assert w.incoming[j] == 0;
      assert NullAt(w.incoming) <= j;
    }
  }

  lemma GetPrefix(w: Wire, a: seq<byte>, rest: seq<byte>)
    requires w.incoming == a + rest
    ensures Get(w, |a|) == (w.(incoming := rest), Some(a))
  {
  }

  lemma HeaderConsumed(w: Wire, port: nat, ip: seq<byte>, tail: seq<byte>)
    requires |ip| == 4 && port < 65536 && w.incoming == [4, 1] + PortBytes(port) + ip + tail
    ensures var hdr := [4, 1] + PortBytes(port) + ip;
            && Get(w, 8) == (w.(incoming := tail), Some(hdr))
            && PortFrom(hdr[2], hdr[3]) == port && hdr[4..8] == ip && hdr[0] == 4 && hdr[1] == 1
  {
    GetPrefix(w, [4, 1] + PortBytes(port) + ip, tail);
    PortRoundTrip(port);
  }

  /**
   * The request the relay writes to a SOCKS4a proxy is read back by a relay as the same host and
   * port, consuming exactly its bytes, if and only if the host has no zero byte.
   */
  lemma Socks4aRequestRoundTrip(w: Wire, host: seq<byte>, port: nat, rest: seq<byte>)
    requires port < 65536 && w.incoming == Socks4aRequest(host, port) + rest
    ensures ReadRequest(w) == (w.(incoming := rest), Some(Request(host, port, [0, 0, 0, 1]))) <==> 0 !in host
  {
    var tail := [0] + host + [0] + rest;
    assert w.incoming == [4, 1] + PortBytes(port) + [0, 0, 0, 1] + tail;
    HeaderConsumed(w, port, [0, 0, 0, 1], tail);
    EmptyId(w, host, rest);
    HostEnds(w.(incoming := host + [0] + rest), host, rest);
  }

  /** A CONNECT request as section 4 of RFC 1928 lays it out, for a domain name address. */
  function DecodeRequest(s: seq<byte>): Option<(seq<byte>, nat, seq<byte>)> {
    if |s| < 5 || s[0] != 5 || s[1] != 1 || s[2] != 0 || s[3] != 3 then None
    else
      var end: nat := s[4] as int + 5;
      if |s| < end + 2 then None else Some((s[5..end], 256 * (s[end] as int) + s[end + 1] as int, s[end + 2..]))
  }

  /** A username/password request as section 2 of RFC 1929 lays it out. */
  function DecodeLogin(s: seq<byte>): Option<(seq<byte>, seq<byte>, seq<byte>)> {
    if |s| < 2 || s[0] != 1 then None
    else
      var at: nat := s[1] as int + 2;
      if |s| < at + 1 then None
      else
        var end: nat := s[at] as int + at + 1;
        if |s| < end then None else Some((s[2..at], s[at + 1..end], s[end..]))
  }

  /** A server reads the host and port that were meant exactly when the host fits its length byte. */
  lemma Socks5RequestRoundTrip(host: seq<byte>, port: nat)
    requires port < 65536
    ensures DecodeRequest(Socks5Request(host, port)) == Some((host, port, [])) <==> |host| <= 255
  {
    var s := Socks5Request(host, port);
    PortRoundTrip(port);
    if |host| <= 255 {
      assert s[5..5 + |host|] == host;
      assert s[5 + |host|..] == PortBytes(port);
      assert s[5 + |host|] == PortBytes(port)[0] && s[5 + |host| + 1] == PortBytes(port)[1];
      assert s[5 + |host| + 2..] == [];
    } else if DecodeRequest(s).Some? {
      assert |DecodeRequest(s).value.0| <= 255;
    }
  }

  /** And the login that was meant exactly when both parts fit theirs. */
  lemma LoginRoundTrip(user: seq<byte>, pass: seq<byte>)
    ensures DecodeLogin(LoginMessage(user, pass)) == Some((user, pass, [])) <==> |user| <= 255 && |pass| <= 255
  {
    var s := LoginMessage(user, pass);
    if |user| <= 255 {
      assert s[2..2 + |user|] == user;
      assert s[2 + |user|] == |pass| % 256;
      assert s[2 + |user| + 1..] == pass;
      if |pass| <= 255 {
        assert s[2 + |user| + 1..2 + |user| + 1 + |pass|] == pass;
      }
    }
  }

  /** A bound address with its type byte: IPv4, domain name with its length, or IPv6. */
  predicate IsBound(address: seq<byte>) {
    address != [] &&
    (|| (address[0] == 1 && |address| == 5)
     || (address[0] == 3 && |address| >= 2 && |address| - 2 == address[1] as int)
     || (address[0] == 4 && |address| == 17))
  }

  /** A success reply as section 6 of RFC 1928 lays it out. */
  function SuccessReply(address: seq<byte>, port: nat): seq<byte> {
    [5, 0, 0] + address + PortBytes(port)
  }

  /** What a server that accepts sends: its method choice, a login verdict if that is due, the reply. */
  function Acceptance(chosen: byte, address: seq<byte>, port: nat): seq<byte> {
    [5, chosen] + (if chosen == 2 then [1, 0] else []) + SuccessReply(address, port)
  }

  lemma ReplyConsumed(w: Wire, host: seq<byte>, port: nat, address: seq<byte>, bound: nat, tunnel: seq<byte>)
    requires w.writes >= 1 && IsBound(address) && w.incoming == SuccessReply(address, bound) + tunnel
    ensures var (w', e) := Requested(w, host, port);
            e.None? && w'.incoming == tunnel && w'.sent == w.sent + Socks5Request(host, port)
  {
    var (w1, _) := Put(w, Socks5Request(host, port));
    var after := address[1..] + PortBytes(bound) + tunnel;
    assert w1.incoming == [5, 0, 0, address[0]] + after;
    GetPrefix(w1, [5, 0, 0, address[0]], after);
    var w2 := w1.(incoming := after);
    if address[0] == 3 {
      assert after == [address[1]] + (address[2..] + PortBytes(bound) + tunnel);
      GetPrefix(w2, [address[1]], address[2..] + PortBytes(bound) + tunnel);
      GetPrefix(w2.(incoming := address[2..] + PortBytes(bound) + tunnel), address[2..] + PortBytes(bound), tunnel);
    } else {
      GetPrefix(w2, address[1..] + PortBytes(bound), tunnel);
    }
  }

  /** What the client side of an accepted negotiation puts on the wire. */
  function Offered(chosen: byte, host: seq<byte>, port: nat, user: seq<byte>, pass: seq<byte>): seq<byte> {
    Greeting(user) + (if chosen == 2 then LoginMessage(user, pass) else []) + Socks5Request(host, port)
  }

  lemma NegotiationConsumed(w: Wire, chosen: byte, user: seq<byte>, pass: seq<byte>, rest: seq<byte>)
    requires w.writes >= 2 && chosen != 255 && (chosen == 2 ==> user != [])
    requires w.incoming == (if chosen == 2 then [1, 0] else []) + rest
    ensures var (w', e) := Negotiated(w, chosen, user, pass);
            && e.None? && w'.incoming == rest && w'.writes >= 1
            && w'.sent == w.sent + if chosen == 2 then LoginMessage(user, pass) else []
  {
    if chosen == 2 {
      GetPrefix(Put(w, LoginMessage(user, pass)).0, [1, 0], rest);
    } else {
      assert w.incoming == rest;
    }
  }

  lemma Assembled(sent: seq<byte>, a: seq<byte>, b: seq<byte>, c: seq<byte>)
    ensures ((sent + a) + b) + c == sent + (a + b + c)
  {
  }

  lemma RequestGoesThrough(w: Wire, w2: Wire, host: seq<byte>, port: nat, user: seq<byte>, pass: seq<byte>,
                           chosen: byte, address: seq<byte>, bound: nat, tunnel: seq<byte>)
    requires IsBound(address) && w2.sent == w.sent + Greeting(user)
    requires var (w3, e) := Negotiated(w2, chosen, user, pass);
             && e.None? && w3.writes >= 1 && w3.incoming == SuccessReply(address, bound) + tunnel
             && w3.sent == w2.sent + if chosen == 2 then LoginMessage(user, pass) else []
    ensures var (w', e) := Requested(Negotiated(w2, chosen, user, pass).0, host, port);
            e.None? && w'.incoming == tunnel && w'.sent == w.sent + Offered(chosen, host, port, user, pass)
  {
    ReplyConsumed(Negotiated(w2, chosen, user, pass).0, host, port, address, bound, tunnel);
    var login := if chosen == 2 then LoginMessage(user, pass) else [];
    Assembled(w.sent, Greeting(user), login, Socks5Request(host, port));
  }

  lemma ChoiceConsumed(
      w: Wire, host: seq<byte>, port: nat, user: seq<byte>, pass: seq<byte>, chosen: byte, rest: seq<byte>)
    requires w.writes >= 1 && w.incoming == [5, chosen] + rest
    ensures var w2 := w.(incoming := rest, sent := w.sent + Greeting(user), writes := w.writes - 1);
            var (w3, e) := Negotiated(w2, chosen, user, pass);
            Socks5(w, host, port, user, pass) == if e.Some? then (w3, e) else Requested(w3, host, port)
  {
    GetPrefix(Put(w, Greeting(user)).0, [5, chosen], rest);
  }

  /**
   * Whatever bound address an accepting server reports, the connector succeeds, has written
   * exactly greeting, login when asked and request, and leaves the stream at the first tunnel byte.
   */
  lemma Socks5LeavesTunnel(w: Wire, host: seq<byte>, port: nat, user: seq<byte>, pass: seq<byte>,
                           chosen: byte, address: seq<byte>, bound: nat, tunnel: seq<byte>)
    requires w.writes >= 3 && IsBound(address)
    requires chosen != 255 && (chosen == 2 ==> user != [])
    requires w.incoming == Acceptance(chosen, address, bound) + tunnel
    ensures var (w', e) := Socks5(w, host, port, user, pass);
            e.None? && w'.incoming == tunnel && w'.sent == w.sent + Offered(chosen, host, port, user, pass)
  {
    var reply := SuccessReply(address, bound) + tunnel;
    var login: seq<byte> := if chosen == 2 then [1, 0] else [];
    assert w.incoming == [5, chosen] + (login + reply);
    ChoiceConsumed(w, host, port, user, pass, chosen, login + reply);
    var w2 := w.(incoming := login + reply, sent := w.sent + Greeting(user), writes := w.writes - 1);
    NegotiationConsumed(w2, chosen, user, pass, reply);
    RequestGoesThrough(w, w2, host, port, user, pass, chosen, address, bound, tunnel);
  }

  lemma Socks4aLeavesTunnel(w: Wire, host: seq<byte>, port: nat, reply: seq<byte>, tunnel: seq<byte>)
    requires w.writes >= 1 && |reply| == 8 && reply[1] == 0x5A && w.incoming == reply + tunnel
    ensures Socks4a(w, host, port) ==
            (w.(incoming := tunnel, sent := w.sent + Socks4aRequest(host, port), writes := w.writes - 1), None)
  {
    GetPrefix(Put(w, Socks4aRequest(host, port)).0, reply, tunnel);
  }

  /** A SOCKS4a connection is made exactly when its request goes out and eight bytes with 0x5A second come back. */
  lemma Socks4aSucceedsIff(w: Wire, host: seq<byte>, port: nat)
    ensures Socks4a(w, host, port).1.None? <==> w.writes >= 1 && |w.incoming| >= 8 && w.incoming[1] == 0x5A
  {
  }

  /**
   * A SOCKS5 connection is made exactly when its messages go out and the server answers with version
   * 5 and a method it can serve, accepts the login if it asked for one, and replies with code zero.
   * The bound address may be cut short.
   */
  lemma Socks5SucceedsIff(w: Wire, host: seq<byte>, port: nat, user: seq<byte>, pass: seq<byte>)
    ensures Socks5(w, host, port, user, pass).1.None? <==>
              var s := w.incoming;
              && |s| >= 2 && s[0] == 5 && s[1] != 255
              && if s[1] == 2 then user != [] && w.writes >= 3 && |s| >= 8 && s[3] == 0 && s[5] == 0
                 else w.writes >= 2 && |s| >= 6 && s[3] == 0
  {
    var s := w.incoming;
    if |s| >= 4 {
      assert s == [s[0], s[1]] + s[2..];
      assert s[2..][1] == s[3];
      assert s[2..][2..] == s[4..];
      assert |s| >= 6 ==> s[4..][1] == s[5];
    }
  }

  lemma ReadingSendsNothing(w: Wire)
    ensures var w' := ReadRequest(w).0; w'.sent == w.sent && w'.writes == w.writes && w'.partial == w.partial
  {
  }

  lemma RequestHasAddress(w: Wire)
    ensures ReadRequest(w).1.Some? ==> |ReadRequest(w).1.value.ip| == 4 && ReadRequest(w).1.value.port < 65536
  {
  }

  /**
   * For all client and upstream streams the client sees nothing unless the upstream connection
   * succeeded, and then the beginning of one eight-byte 0x5A reply for the requested port; all
   * eight bytes if the two sides get spliced.
   */
  lemma ClientSeesNothingEarly(client: Wire, upstream: Wire, dialled: bool, px: Upstream)
    ensures var h := Handle(client, upstream, dialled, px);
            var req := ReadRequest(client).1;
            if req.Some? && dialled && Connect(upstream, px, req.value.host, req.value.port).1.None?
            then
              var reply: seq<byte> := [0, 0x5A, req.value.port / 256 % 256, req.value.port % 256] + req.value.ip;
              && |reply| == 8
              && client.sent <= h.client.sent <= client.sent + reply
              && (h.tunnel ==> h.client.sent == client.sent + reply)
            else h.client.sent == client.sent && !h.tunnel
  {
    ReadingSendsNothing(client);
    RequestHasAddress(client);
  }

  /** An address field that announces a host name after the user id. */
  predicate IsMarker(ip: seq<byte>)
    requires |ip| == 4
  {
    ip[0] == 0 && ip[1] == 0 && ip[2] == 0 && ip[3] != 0
  }

  /** What follows the first eight bytes of a client's request: its user id and, if announced, the host name. */
  function RequestTail(ip: seq<byte>, id: seq<byte>, host: seq<byte>): seq<byte>
    requires |ip| == 4
  {
    id + [0] + if IsMarker(ip) then host + [0] else []
  }

  /** A SOCKS4 or SOCKS4a CONNECT request with any user id. */
  function ClientRequest(port: nat, ip: seq<byte>, id: seq<byte>, host: seq<byte>): seq<byte>
    requires |ip| == 4
  {
    [4, 1, port / 256 % 256, port % 256] + ip + RequestTail(ip, id, host)
  }

  /** The target a request names. */
  function Destination(ip: seq<byte>, host: seq<byte>): seq<byte>
    requires |ip| == 4
  {
    if IsMarker(ip) then host else Ascii(Cidr.Dotted(ip))
  }

  lemma NullConsumed(w: Wire, text: seq<byte>, rest: seq<byte>)
    requires 0 !in text && w.incoming == text + [0] + rest
    ensures GetUntilNull(w) == (w.(incoming := rest), Some(text))
  {
    NullAtEnd(text, rest);
    assert w.incoming[..|text|] == text && w.incoming[|text| + 1..] == rest;
  }

  /** Every request a client can make is read whole: its target, its port, and not a byte more. */
  lemma RequestConsumed(w: Wire, port: nat, ip: seq<byte>, id: seq<byte>, host: seq<byte>, rest: seq<byte>)
    requires |ip| == 4 && port < 65536 && 0 !in id && 0 !in host
    requires w.incoming == ClientRequest(port, ip, id, host) + rest
    ensures ReadRequest(w) == (w.(incoming := rest), Some(Request(Destination(ip, host), port, ip)))
  {
    var tail := RequestTail(ip, id, host) + rest;
    assert w.incoming == [4, 1] + PortBytes(port) + ip + tail;
    HeaderConsumed(w, port, ip, tail);
    var named := if IsMarker(ip) then host + [0] + rest else rest;
    assert tail == id + [0] + named;
    NullConsumed(w.(incoming := tail), id, named);
    if IsMarker(ip) { NullConsumed(w.(incoming := named), host, rest); }
  }

  /** What a server that accepts sends, by the protocol it speaks. */
  datatype Accepting =
    | Accepting5(chosen: byte, address: seq<byte>, bound: nat)
    | Accepting4(reply: seq<byte>)

  /** The server speaks the connector's protocol, serves it and answers in form. */
  predicate Suits(a: Accepting, px: Upstream) {
    match a
    case Accepting5(chosen, address, _) =>
      px.socks5 && IsBound(address) && chosen != 255 && (chosen == 2 ==> px.user != [])
    case Accepting4(reply) => !px.socks5 && |reply| == 8 && reply[1] == 0x5A
  }

  function Answers(a: Accepting): seq<byte> {
    match a
    case Accepting5(chosen, address, bound) => Acceptance(chosen, address, bound)
    case Accepting4(reply) => reply
  }

  function Sends(a: Accepting, px: Upstream, host: seq<byte>, port: nat): seq<byte> {
    match a
    case Accepting5(chosen, _, _) => Offered(chosen, host, port, px.user, px.pass)
    case Accepting4(_) => Socks4aRequest(host, port)
  }

  lemma ConnectLeavesTunnel(w: Wire, px: Upstream, a: Accepting, host: seq<byte>, port: nat, tunnel: seq<byte>)
    requires w.writes >= (if px.socks5 then 3 else 1) && Suits(a, px) && w.incoming == Answers(a) + tunnel
    ensures var (w', e) := Connect(w, px, host, port);
            e.None? && w'.incoming == tunnel && w'.sent == w.sent + Sends(a, px, host, port)
  {
    match a
    case Accepting5(chosen, address, bound) =>
      Socks5LeavesTunnel(w, host, port, px.user, px.pass, chosen, address, bound, tunnel);
    case Accepting4(reply) => Socks4aLeavesTunnel(w, host, port, reply, tunnel);
  }

  /** The reply to a client: a zero byte, the code for granted, the port and the address. */
  lemma ReplyBytes(port: nat, ip: seq<byte>)
    ensures Socks4Reply(0x5A, port, ip) == [0, 0x5A, port / 256 % 256, port % 256] + ip
  {
  }

  lemma Spliced(client: Wire, upstream: Wire, px: Upstream, req: Request)
    requires ReadRequest(client).1 == Some(req) && client.writes >= 1
    requires Connect(upstream, px, req.host, req.port).1.None?
    ensures var h := Handle(client, upstream, true, px);
            && h.tunnel && h.client.incoming == ReadRequest(client).0.incoming
            && h.upstream == Connect(upstream, px, req.host, req.port).0
            && h.client.sent == client.sent + ([0, 0x5A, req.port / 256 % 256, req.port % 256] + req.ip)
  {
    ReadingSendsNothing(client);
    ReplyBytes(req.port, req.ip);
  }

  /**
   * For every request a client can make and every proxy that accepts, the two sides get spliced; then
   * the bytes the client sent after its request are all still to be read, and so are the bytes the
   * proxy sent after its reply.
   */
  lemma TunnelStartsClean(client: Wire, upstream: Wire, px: Upstream, a: Accepting, port: nat,
                          ip: seq<byte>, id: seq<byte>, host: seq<byte>, down: seq<byte>, up: seq<byte>)
    requires |ip| == 4 && port < 65536 && 0 !in id && 0 !in host
    requires client.incoming == ClientRequest(port, ip, id, host) + up && client.writes >= 1
    requires Suits(a, px) && upstream.writes >= (if px.socks5 then 3 else 1)
    requires upstream.incoming == Answers(a) + down
    ensures var h := Handle(client, upstream, true, px);
            && h.tunnel && h.client.incoming == up && h.upstream.incoming == down
            && h.client.sent == client.sent + ([0, 0x5A, port / 256 % 256, port % 256] + ip)
            && h.upstream.sent == upstream.sent + Sends(a, px, Destination(ip, host), port)
  {
    RequestConsumed(client, port, ip, id, host, up);
    ConnectLeavesTunnel(upstream, px, a, Destination(ip, host), port, down);
    Spliced(client, upstream, px, Request(Destination(ip, host), port, ip));
  }

  /** The request written to a SOCKS4a proxy is that of a client with a host name and no user id. */
  lemma AsksAsClient(host: seq<byte>, port: nat)
    ensures Socks4aRequest(host, port) == ClientRequest(port, [0, 0, 0, 1], [], host)
  {
  }

  lemma NullCut(w: Wire)
    requires GetUntilNull(w).1.Some?
    ensures var (w', text) := GetUntilNull(w);
            0 !in text.value && w.incoming == text.value + [0] + w'.incoming && w' == w.(incoming := w'.incoming)
  {
    var i := NullAt(w.incoming);
    assert w.incoming == w.incoming[..i] + [w.incoming[i]] + w.incoming[i + 1..];
  }

  lemma HeaderCut(s: seq<byte>)
    requires |s| >= 8 && s[0] == 4 && s[1] == 1
    ensures var port := PortFrom(s[2], s[3]);
            && port < 65536
            && s == [4, 1, port / 256 % 256, port % 256] + s[4..8] + s[8..]
  {
    var port := PortFrom(s[2], s[3]);
    assert port / 256 == s[2] && port % 256 == s[3];
    assert s == s[..4] + s[4..8] + s[8..];
    assert s[..4] == [s[0], s[1], s[2], s[3]];
  }

  lemma TailAssembled(id: seq<byte>, host: seq<byte>, rest: seq<byte>)
    ensures id + [0] + (host + [0] + rest) == (id + [0] + (host + [0])) + rest
  {
  }

  lemma RequestAssembled(head: seq<byte>, tail: seq<byte>, rest: seq<byte>)
    ensures head + (tail + rest) == (head + tail) + rest
  {
  }

  /** The user id and the host name as they are cut off, and what is left. */
  lemma TailCut(w: Wire, ip: seq<byte>) returns (id: seq<byte>, host: seq<byte>, rest: seq<byte>)
    requires |ip| == 4 && GetUntilNull(w).1.Some?
    requires IsMarker(ip) ==> GetUntilNull(GetUntilNull(w).0).1.Some?
    ensures 0 !in id && 0 !in host && w.incoming == RequestTail(ip, id, host) + rest
    ensures GetUntilNull(w) == (w.(incoming := if IsMarker(ip) then host + [0] + rest else rest), Some(id))
    ensures IsMarker(ip) ==> GetUntilNull(GetUntilNull(w).0) == (w.(incoming := rest), Some(host))
  {
    NullCut(w);
    var w2 := GetUntilNull(w).0;
    id, host, rest := GetUntilNull(w).1.value, [], w2.incoming;
    if IsMarker(ip) {
      NullCut(w2);
      host, rest := GetUntilNull(w2).1.value, GetUntilNull(w2).0.incoming;
      TailAssembled(id, host, rest);
    }
  }

  /** Nothing but such a request is read as one. */
  lemma RequestIsClients(w: Wire) returns (port: nat, ip: seq<byte>, id: seq<byte>, host: seq<byte>)
    requires ReadRequest(w).1.Some?
    ensures |ip| == 4 && port < 65536 && 0 !in id && 0 !in host
    ensures w.incoming == ClientRequest(port, ip, id, host) + ReadRequest(w).0.incoming
    ensures ReadRequest(w).1 == Some(Request(Destination(ip, host), port, ip))
  {
    var s := w.incoming;
    HeaderCut(s);
    port, ip := PortFrom(s[2], s[3]), s[4..8];
    assert Get(w, 8) == (w.(incoming := s[8..]), Some(s[..8])) && s[..8][4..8] == ip;
    var rest;
    id, host, rest := TailCut(w.(incoming := s[8..]), ip);
    RequestAssembled([4, 1, port / 256 % 256, port % 256] + ip, RequestTail(ip, id, host), rest);
    RequestConsumed(w, port, ip, id, host, rest);
  }

  /** A greeting as section 3 of RFC 1928 lays it out: the version, a count, and as many methods. */
  function DecodeGreeting(s: seq<byte>): Option<seq<byte>> {
    if |s| < 2 || s[0] != 5 || |s| - 2 != s[1] as int then None else Some(s[2..])
  }

  /** No authentication is always offered, a login exactly when there is a user. */
  lemma GreetingReads(user: seq<byte>)
    ensures DecodeGreeting(Greeting(user)) == Some(if user == [] then [0] else [0, 2])
  {
  }

  function Characters(bytes: seq<byte>): string {
    seq(|bytes|, i requires 0 <= i < |bytes| => bytes[i] as char)
  }

  lemma {:induction false} JoinPlain(parts: seq<string>)
    requires forall k, i :: 0 <= k < |parts| && 0 <= i < |parts[k]| ==> parts[k][i] <= '9'
    ensures forall i :: 0 <= i < |Text.Join(parts, '.')| ==> Text.Join(parts, '.')[i] <= '9'
  {
    if |parts| > 1 {
      var later := parts[1..];
      assert forall k :: 0 <= k < |later| ==> later[k] == parts[k + 1];
      JoinPlain(later);
    }
  }

  lemma DottedPlain(ip: seq<byte>)
    ensures forall i :: 0 <= i < |Cidr.Dotted(ip)| ==> Cidr.Dotted(ip)[i] <= '9'
  {
    var octets := Cidr.Octets(ip);
    forall k, i | 0 <= k < |octets| && 0 <= i < |octets[k]| ensures octets[k][i] <= '9' {
      assert Text.IsDigit(octets[k][i]);
    }
    JoinPlain(octets);
  }

  lemma CharactersBack(text: string)
    requires forall i :: 0 <= i < |text| ==> text[i] <= '9'
    ensures Characters(Ascii(text)) == text
  {
  }

  lemma TextReads(text: string, ip: seq<byte>)
    requires ip != [] && text == Cidr.Dotted(ip)
    ensures Cidr.DottedValue(Characters(Ascii(text))) == Some(Cidr.Value(ip))
  {
    DottedPlain(ip);
    CharactersBack(text);
    Cidr.DottedRoundTrip(ip);
  }

  /** An address that is no announcement is asked for in dotted decimal, which reads as its number. */
  lemma DestinationReads(ip: seq<byte>, host: seq<byte>)
    requires |ip| == 4
    ensures if ip[0] == 0 && ip[1] == 0 && ip[2] == 0 && ip[3] != 0 then Destination(ip, host) == host
            else Cidr.DottedValue(Characters(Destination(ip, host))) == Some(Cidr.Value(ip))
  {
    if !IsMarker(ip) { TextReads(Cidr.Dotted(ip), ip); }
  }

  /** How a SOCKS5 attempt ends when every write goes out: by the first byte of the answers that is amiss. */
  lemma Socks5EndsBy(w: Wire, host: seq<byte>, port: nat, user: seq<byte>, pass: seq<byte>)
    requires w.writes >= 3
    ensures var s := w.incoming;
            var code := if |s| >= 2 && s[1] == 2 then 5 else 3;
            Socks5(w, host, port, user, pass).1 ==
            if |s| < 2 then Some(Broken)
            else if s[0] != 5 then Some(NotSocks5)
            else if s[1] == 255 then Some(NoMethod)
            else if s[1] == 2 && user == [] then Some(LoginRequired)
            else if s[1] == 2 && |s| < 4 then Some(Broken)
            else if s[1] == 2 && s[3] != 0 then Some(LoginFailed)
            else if |s| < code + 3 then Some(Broken)
            else if s[code] != 0 then Some(Rejected(s[code]))
            else None
  {
    var s := w.incoming;
    if |s| >= 4 {
      assert s[2..][1] == s[3];
      assert s[2..][2..] == s[4..];
      assert |s| >= 6 ==> s[4..][1] == s[5];
    }
  }

  /** The server has chosen a method that is spoken, and accepted the login if that is the method. */
  predicate Agreed(s: seq<byte>, user: seq<byte>) {
    |s| >= 2 && s[0] == 5 && s[1] != 255 && (s[1] == 2 ==> user != [] && |s| >= 4 && s[3] == 0)
  }

  lemma RequestedSends(w: Wire, host: seq<byte>, port: nat)
    requires w.writes >= 1
    ensures Requested(w, host, port).0.sent == w.sent + Socks5Request(host, port)
  {
  }

  lemma NegotiatedSends(w: Wire, chosen: byte, user: seq<byte>, pass: seq<byte>)
    requires w.writes >= 2
    ensures var (w', e) := Negotiated(w, chosen, user, pass);
            && w'.writes >= 1
            && w'.sent == w.sent + (if chosen == 2 && user != [] then LoginMessage(user, pass) else [])
            && (e.None? <==> Agreed([5, chosen] + w.incoming, user))
  {
    var s := [5, chosen] + w.incoming;
    if |w.incoming| >= 2 { assert s[3] == w.incoming[1]; }
  }

  /** Each message goes out only when the answer before it was what it should be. */
  lemma Socks5SendsInTurn(w: Wire, host: seq<byte>, port: nat, user: seq<byte>, pass: seq<byte>)
    requires w.writes >= 3
    ensures var s := w.incoming;
            Socks5(w, host, port, user, pass).0.sent ==
            w.sent + (
              Greeting(user)
              + (if |s| >= 2 && s[0] == 5 && s[1] == 2 && user != [] then LoginMessage(user, pass) else [])
              + (if Agreed(s, user) then Socks5Request(host, port) else []))
  {
    var s := w.incoming;
    if |s| >= 2 && s[0] == 5 {
      ChoiceConsumed(w, host, port, user, pass, s[1], s[2..]);
      var w2 := w.(incoming := s[2..], sent := w.sent + Greeting(user), writes := w.writes - 1);
      assert s == [5, s[1]] + s[2..];
      NegotiatedSends(w2, s[1], user, pass);
      var w3 := Negotiated(w2, s[1], user, pass).0;
      RequestedSends(w3, host, port);
      Assembled(w.sent, Greeting(user), if s[1] == 2 && user != [] then LoginMessage(user, pass) else [],
                if Agreed(s, user) then Socks5Request(host, port) else []);
    }
  }
}
