/** The Hosts tab as a value: a two-level index over findings, and the flat account it stands for. */
module HostTable {
  import opened Sequences
  import opened Text
  import opened Votes
  import opened RunScan

  /** One open port on a host, with every proxy that has vouched for it. */
  datatype Entry = Entry(
    port: int, proto: string, service: string, version: string, banner: string, proxies: seq<string>)

  datatype Host = Host(ip: string, ports: seq<Entry>, portIdx: map<string, nat>)

  datatype Table = Table(hosts: seq<Host>, hostsMap: map<string, nat>)

  function Key(port: int, proto: string): string {
    Decimal(port) + "/" + proto
  }

  /** The key tells entries apart exactly as port and protocol do, whatever the protocol contains. */
  lemma KeyIsIdentity(port: int, proto: string, port': int, proto': string)
    ensures Key(port, proto) == Key(port', proto') <==> port == port' && proto == proto'
  {
    if Key(port, proto) == Key(port', proto') {
      DecimalPlain(port);
      DecimalPlain(port');
      var d, d' := Decimal(port), Decimal(port');
      assert Key(port, proto) == d + ['/'] + proto && Key(port', proto') == d' + ['/'] + proto';
      IndexOfAt(d, '/', proto);
      IndexOfAt(d', '/', proto');
      assert d == Key(port, proto)[..|d|] && d' == Key(port, proto)[..|d|];
      assert proto == Key(port, proto)[|d| + 1..] && proto' == Key(port, proto)[|d| + 1..];
      DecimalInjective(port, port');
    }
  }

  /** base, then each new non-empty text of add once, in order. */
  function DedupeAppend(base: seq<string>, add: seq<string>): seq<string> {
    if add == [] then base
    else
      var before, x := DedupeAppend(base, add[..|add| - 1]), add[|add| - 1];
      if x != "" && x !in before then before + [x] else before
  }

  /** The union with the non-empty texts of add, without duplicates, base kept in front. */
  lemma {:induction false} DedupeIsUnion(base: seq<string>, add: seq<string>)
    ensures base <= DedupeAppend(base, add)
    ensures Elems(DedupeAppend(base, add)) == Elems(base) + (Elems(add) - {""})
    ensures NoDup(base) ==> NoDup(DedupeAppend(base, add))
  {
    if add != [] {
      var init, x := add[..|add| - 1], add[|add| - 1];
      assert add == init + [x];
      DedupeIsUnion(base, init);
      var before := DedupeAppend(base, init);
      assert Elems(add) == Elems(init) + {x};
      if x != "" && x !in before {
        if NoDup(base) { NoDupAppend(before, x); }
        assert Elems(before + [x]) == Elems(before) + {x};
      } else {
        assert x == "" || x in Elems(before);
      }
    }
  }

  /** What is appended comes in the order of add, each text at its first appearance. */
  lemma {:induction false} DedupeInOrder(base: seq<string>, add: seq<string>) returns (at: seq<nat>)
    ensures base <= DedupeAppend(base, add) && Picks(DedupeAppend(base, add)[|base|..], add, at)
    ensures forall m :: 0 <= m < |at| ==> add[at[m]] != "" && add[at[m]] !in base && add[at[m]] !in add[..at[m]]
  {
    at := [];
    DedupeIsUnion(base, add);
    if add != [] {
      var init, last := add[..|add| - 1], |add| - 1;
      at := DedupeInOrder(base, init);
      DedupeIsUnion(base, init);
      var before := DedupeAppend(base, init);
      forall m | 0 <= m < |at| ensures add[at[m]] == init[at[m]] && add[at[m]] !in add[..at[m]] {
        assert add[..at[m]] == init[..at[m]];
      }
      if add[last] != "" && add[last] !in before {
        assert forall k :: k in at ==> k < last;
        assert add[last] !in Elems(before);
        RisesConcat(at, [last], last);
        at := at + [last];
      }
    }
  }

  lemma {:induction false} DedupeConcat(base: seq<string>, a: seq<string>, b: seq<string>)
    ensures DedupeAppend(base, a + b) == DedupeAppend(DedupeAppend(base, a), b)
  {
    if b == [] {
      assert a + b == a;
    } else {
      assert (a + b)[..|a + b| - 1] == a + b[..|b| - 1];
      DedupeConcat(base, a, b[..|b| - 1]);
    }
  }

  /** Nothing is appended if and only if everything in add is empty or already there. */
  lemma {:induction false} DedupeAbsorbs(base: seq<string>, add: seq<string>)
    ensures DedupeAppend(base, add) == base <==> forall x :: x in add ==> x == "" || x in base
  {
    DedupeIsUnion(base, add);
    if forall x :: x in add ==> x == "" || x in base {
      if add != [] {
        DedupeAbsorbs(base, add[..|add| - 1]);
        assert add[|add| - 1] in add;
      }
    } else {
      var x :| x in add && x != "" && x !in base;
      assert x in Elems(add) && x !in Elems(base);
      assert x in Elems(DedupeAppend(base, add));
    }
  }

  /** Those who vouched for a finding: its proxies, or else the one that found it. */
  function Provers(f: Finding): seq<string> {
    if f.proxies == [] && f.primary != "" then [f.primary] else f.proxies
  }

  function FirstOf(a: string, b: string): string {
    if a == "" then b else a
  }

  function Merge(e: Entry, f: Finding): Entry {
    e.(proxies := DedupeAppend(e.proxies, Provers(f)),
       service := FirstOf(e.service, f.service),
       version := FirstOf(e.version, f.version),
       banner := FirstOf(e.banner, f.banner))
  }

  function NewEntry(f: Finding): Entry {
    Entry(f.port, f.proto, f.service, f.version, f.banner, DedupeAppend([], Provers(f)))
  }

  function EntryKey(e: Entry): string {
    Key(e.port, e.proto)
  }

  /** The index of a host is the exact inverse of its list of ports. */
  ghost predicate HostOk(h: Host) {
    && (forall i: nat :: i < |h.ports| ==>
          EntryKey(h.ports[i]) in h.portIdx && h.portIdx[EntryKey(h.ports[i])] == i)
    && (forall k :: k in h.portIdx ==>
          h.portIdx[k] < |h.ports| && EntryKey(h.ports[h.portIdx[k]]) == k)
  }

  /** The index of hosts is the exact inverse of their list. */
  ghost predicate TableOk(t: Table) {
    && (forall i: nat :: i < |t.hosts| ==> t.hosts[i].ip in t.hostsMap && t.hostsMap[t.hosts[i].ip] == i)
    && (forall ip :: ip in t.hostsMap ==> t.hostsMap[ip] < |t.hosts| && t.hosts[t.hostsMap[ip]].ip == ip)
    && (forall i: nat :: i < |t.hosts| ==> HostOk(t.hosts[i]))
  }

  function Recorded(h: Host, f: Finding): (r: Host)
    requires HostOk(h)
    ensures r.ip == h.ip
  {
    var key := Key(f.port, f.proto);
    if key in h.portIdx then
      var i := h.portIdx[key];
      h.(ports := h.ports[i := Merge(h.ports[i], f)])
    else
      h.(ports := h.ports + [NewEntry(f)], portIdx := h.portIdx[key := |h.ports|])
  }

  function NewHost(ip: string): Host {
    Host(ip, [], map[])
  }

  /** The host a finding goes to, listed if it was not. */
  function Listed(t: Table, ip: string): (r: Table)
    requires TableOk(t)
    ensures TableOk(r) && ip in r.hostsMap
  {
    if ip in t.hostsMap then t
    else
      var r := Table(t.hosts + [NewHost(ip)], t.hostsMap[ip := |t.hosts|]);
      assert forall i: nat :: i < |t.hosts| ==> r.hosts[i] == t.hosts[i] && t.hosts[i].ip != ip;
      r
  }

  lemma RecordedOk(h: Host, f: Finding)
    requires HostOk(h)
    ensures HostOk(Recorded(h, f))
  {
    var r := Recorded(h, f);
    var key := Key(f.port, f.proto);
    if key in h.portIdx {
      assert forall i: nat :: i < |h.ports| ==> EntryKey(r.ports[i]) == EntryKey(h.ports[i]);
    } else {
      assert forall i: nat :: i < |h.ports| ==> r.ports[i] == h.ports[i];
    }
  }

  function Pushed(t: Table, f: Finding): (r: Table)
    requires TableOk(t)
    ensures TableOk(r)
  {
    if f.host == "" then t
    else
      var u := Listed(t, f.host);
      var i := u.hostsMap[f.host];
      RecordedOk(u.hosts[i], f);
      u.(hosts := u.hosts[i := Recorded(u.hosts[i], f)])
  }

  function PushedAll(t: Table, fs: seq<Finding>): (r: Table)
    requires TableOk(t)
    ensures TableOk(r)
  {
    if fs == [] then t else Pushed(PushedAll(t, fs[..|fs| - 1]), fs[|fs| - 1])
  }

  /** The findings on one port of one host, in order. */
  function About(fs: seq<Finding>, ip: string, port: int, proto: string): seq<Finding> {
    if fs == [] then []
    else
      var before, f := About(fs[..|fs| - 1], ip, port, proto), fs[|fs| - 1];
      if f.host == ip && f.port == port && f.proto == proto then before + [f] else before
  }

  function Each(fs: seq<Finding>, part: Finding -> string): seq<string> {
    seq(|fs|, i requires 0 <= i < |fs| => part(fs[i]))
  }

  function AllProvers(fs: seq<Finding>): seq<string> {
    if fs == [] then [] else AllProvers(fs[..|fs| - 1]) + Provers(fs[|fs| - 1])
  }

  /** The keys of the findings on a host, in order. */
  function KeysOn(fs: seq<Finding>, ip: string): seq<string> {
    if fs == [] then []
    else
      var before, f := KeysOn(fs[..|fs| - 1], ip), fs[|fs| - 1];
      if f.host == ip then before + [Key(f.port, f.proto)] else before
  }

  const HostOf := (f: Finding) => f.host
  const ServiceOf := (f: Finding) => f.service
  const VersionOf := (f: Finding) => f.version
  const BannerOf := (f: Finding) => f.banner

  /** What findings on one port amount to: the first texts that are not empty, and every prover once. */
  function Account(port: int, proto: string, fs: seq<Finding>): Entry {
    Entry(port, proto, FirstNonEmpty(Each(fs, ServiceOf)), FirstNonEmpty(Each(fs, VersionOf)),
          FirstNonEmpty(Each(fs, BannerOf)), DedupeAppend([], AllProvers(fs)))
  }

  function KeysOf(h: Host): seq<string> {
    seq(|h.ports|, i requires 0 <= i < |h.ports| => EntryKey(h.ports[i]))
  }

  function Addresses(t: Table): seq<string> {
    seq(|t.hosts|, i requires 0 <= i < |t.hosts| => t.hosts[i].ip)
  }

  /** The entry is the account of the findings on its port. */
  ghost predicate Accounted(e: Entry, fs: seq<Finding>, ip: string) {
    e == Account(e.port, e.proto, About(fs, ip, e.port, e.proto))
  }

  /** The ports of a host are those with findings on it, in order of appearance, each with its account. */
  ghost predicate HostTells(h: Host, fs: seq<Finding>) {
    && HostOk(h)
    && KeysOf(h) == DedupeAppend([], KeysOn(fs, h.ip))
    && forall i: nat :: i < |h.ports| ==> Accounted(h.ports[i], fs, h.ip)
  }

  /** The hosts are those with findings, in order of appearance, each with its ports. */
  ghost predicate Tells(t: Table, fs: seq<Finding>) {
    && TableOk(t)
    && Addresses(t) == DedupeAppend([], Each(fs, HostOf))
    && forall i: nat :: i < |t.hosts| ==> HostTells(t.hosts[i], fs)
  }

  /** One more finding on a port is merged into its account. */
  lemma AccountStep(port: int, proto: string, fs: seq<Finding>, f: Finding)
    ensures Account(port, proto, fs + [f]) == Merge(Account(port, proto, fs), f)
  {
    assert Each(fs + [f], ServiceOf) == Each(fs, ServiceOf) + [f.service];
    assert Each(fs + [f], VersionOf) == Each(fs, VersionOf) + [f.version];
    assert Each(fs + [f], BannerOf) == Each(fs, BannerOf) + [f.banner];
    FirstNonEmptyAppend(Each(fs, ServiceOf), f.service);
    FirstNonEmptyAppend(Each(fs, VersionOf), f.version);
    FirstNonEmptyAppend(Each(fs, BannerOf), f.banner);
    assert (fs + [f])[..|fs| + 1 - 1] == fs;
    assert AllProvers(fs + [f]) == AllProvers(fs) + Provers(f);
    DedupeConcat([], AllProvers(fs), Provers(f));
  }

  lemma FirstAccount(f: Finding)
    ensures Account(f.port, f.proto, [f]) == NewEntry(f)
  {
    AccountStep(f.port, f.proto, [], f);
    assert [] + [f] == [f];
  }

  lemma AboutStep(fs: seq<Finding>, f: Finding, ip: string, port: int, proto: string)
    ensures About(fs + [f], ip, port, proto) ==
            About(fs, ip, port, proto) + if f.host == ip && f.port == port && f.proto == proto then [f] else []
    ensures KeysOn(fs + [f], ip) == KeysOn(fs, ip) + if f.host == ip then [Key(f.port, f.proto)] else []
  {
    assert (fs + [f])[..|fs + [f]| - 1] == fs;
  }

  /** No findings on a port whose key is not among the keys. */
  lemma {:induction false} AboutNothing(fs: seq<Finding>, ip: string, port: int, proto: string)
    requires Key(port, proto) !in KeysOn(fs, ip)
    ensures About(fs, ip, port, proto) == []
  {
    if fs != [] {
      var init, f := fs[..|fs| - 1], fs[|fs| - 1];
      assert fs == init + [f];
      AboutStep(init, f, ip, port, proto);
      AboutNothing(init, ip, port, proto);
    }
  }

  lemma {:induction false} KeysOnNothing(fs: seq<Finding>, ip: string)
    requires ip !in Each(fs, HostOf)
    ensures KeysOn(fs, ip) == []
  {
    if fs != [] {
      var init, f := fs[..|fs| - 1], fs[|fs| - 1];
      assert fs == init + [f];
      assert Each(fs, HostOf) == Each(init, HostOf) + [f.host];
      AboutStep(init, f, ip, 0, "");
      KeysOnNothing(init, ip);
    }
  }

  lemma DedupeStep(all: seq<string>, x: string)
    ensures var before := DedupeAppend([], all);
            DedupeAppend([], all + [x]) == if x != "" && x !in before then before + [x] else before
  {
    var s := all + [x];
    assert s[..|s| - 1] == all && s[|s| - 1] == x;
  }

  /** A finding elsewhere says nothing about this host. */
  lemma HostUntold(h: Host, fs: seq<Finding>, f: Finding)
    requires HostTells(h, fs) && f.host != h.ip
    ensures HostTells(h, fs + [f])
  {
    AboutStep(fs, f, h.ip, 0, "");
    forall i: nat | i < |h.ports| ensures Accounted(h.ports[i], fs + [f], h.ip) {
      AboutStep(fs, f, h.ip, h.ports[i].port, h.ports[i].proto);
    }
  }

  lemma KeyListed(h: Host, key: string)
    requires HostOk(h)
    ensures key in h.portIdx <==> key in KeysOf(h)
  {
    if key in h.portIdx { assert KeysOf(h)[h.portIdx[key]] == key; }
  }

  lemma RecordedKeys(h: Host, f: Finding)
    requires HostOk(h)
    ensures var key := Key(f.port, f.proto);
            KeysOf(Recorded(h, f)) == if key in h.portIdx then KeysOf(h) else KeysOf(h) + [key]
  {
    var r, key := Recorded(h, f), Key(f.port, f.proto);
    forall i: nat | i < |h.ports| ensures EntryKey(r.ports[i]) == EntryKey(h.ports[i]) {
      if key in h.portIdx && i == h.portIdx[key] { assert r.ports[i] == Merge(h.ports[i], f); }
    }
  }

  lemma KeyNotEmpty(port: int, proto: string)
    ensures Key(port, proto) != ""
  {
    assert Key(port, proto)[|Decimal(port)|] == '/';
  }

  lemma HostToldKeys(h: Host, fs: seq<Finding>, f: Finding)
    requires HostTells(h, fs) && f.host == h.ip
    ensures KeysOf(Recorded(h, f)) == DedupeAppend([], KeysOn(fs + [f], h.ip))
  {
    KeyNotEmpty(f.port, f.proto);
    KeyListed(h, Key(f.port, f.proto));
    AboutStep(fs, f, h.ip, f.port, f.proto);
    RecordedKeys(h, f);
    DedupeStep(KeysOn(fs, h.ip), Key(f.port, f.proto));
  }

  lemma NewPortUntold(h: Host, fs: seq<Finding>, f: Finding)
    requires HostTells(h, fs) && Key(f.port, f.proto) !in h.portIdx
    ensures About(fs, h.ip, f.port, f.proto) == []
  {
    var key := Key(f.port, f.proto);
    KeyListed(h, key);
    DedupeIsUnion([], KeysOn(fs, h.ip));
    assert key !in Elems(KeysOf(h)) && key[|Decimal(f.port)|] == '/';
    AboutNothing(fs, h.ip, f.port, f.proto);
  }

  lemma PortTold(h: Host, fs: seq<Finding>, f: Finding, i: nat)
    requires HostTells(h, fs) && f.host == h.ip && i < |Recorded(h, f).ports|
    ensures Accounted(Recorded(h, f).ports[i], fs + [f], h.ip)
  {
    var e, key := Recorded(h, f).ports[i], Key(f.port, f.proto);
    AboutStep(fs, f, h.ip, e.port, e.proto);
    KeyIsIdentity(f.port, f.proto, e.port, e.proto);
    if EntryKey(e) == key {
      if key in h.portIdx {
        AccountStep(e.port, e.proto, About(fs, h.ip, e.port, e.proto), f);
      } else {
        NewPortUntold(h, fs, f);
        FirstAccount(f);
      }
    } else {
      assert e == h.ports[i];
    }
  }

  /** A finding on this host is recorded in the account of its port and no other. */
  lemma HostTold(h: Host, fs: seq<Finding>, f: Finding)
    requires HostTells(h, fs) && f.host == h.ip
    ensures HostTells(Recorded(h, f), fs + [f])
  {
    RecordedOk(h, f);
    HostToldKeys(h, fs, f);
    forall i: nat | i < |Recorded(h, f).ports| ensures Accounted(Recorded(h, f).ports[i], fs + [f], h.ip) {
      PortTold(h, fs, f, i);
    }
  }

  lemma AddressListed(t: Table, ip: string)
    requires TableOk(t)
    ensures ip in t.hostsMap <==> ip in Addresses(t)
  {
    if ip in t.hostsMap { assert Addresses(t)[t.hostsMap[ip]] == ip; }
  }

  /** A host without findings has no ports. */
  lemma NewHostTells(fs: seq<Finding>, ip: string)
    requires ip != "" && ip !in DedupeAppend([], Each(fs, HostOf))
    ensures HostTells(NewHost(ip), fs)
  {
    DedupeIsUnion([], Each(fs, HostOf));
    assert ip !in Elems(DedupeAppend([], Each(fs, HostOf)));
    KeysOnNothing(fs, ip);
  }

  lemma ListedAddresses(t: Table, ip: string)
    requires TableOk(t)
    ensures Addresses(Listed(t, ip)) == if ip in t.hostsMap then Addresses(t) else Addresses(t) + [ip]
  {
    if ip !in t.hostsMap { assert Listed(t, ip).hosts == t.hosts + [NewHost(ip)]; }
  }

  lemma PushedAddresses(t: Table, f: Finding)
    requires TableOk(t) && f.host != ""
    ensures Addresses(Pushed(t, f)) == if f.host in t.hostsMap then Addresses(t) else Addresses(t) + [f.host]
  {
    ListedAddresses(t, f.host);
    assert Addresses(Pushed(t, f)) == Addresses(Listed(t, f.host));
  }

  lemma AddressesTold(t: Table, fs: seq<Finding>, f: Finding)
    requires TableOk(t) && Addresses(t) == DedupeAppend([], Each(fs, HostOf))
    ensures Addresses(Pushed(t, f)) == DedupeAppend([], Each(fs + [f], HostOf))
  {
    assert Each(fs + [f], HostOf) == Each(fs, HostOf) + [f.host];
    DedupeStep(Each(fs, HostOf), f.host);
    if f.host != "" {
      AddressListed(t, f.host);
      PushedAddresses(t, f);
    }
  }

  /** Listing a host says nothing yet about its ports. */
  lemma ListedTells(t: Table, fs: seq<Finding>, ip: string)
    requires Tells(t, fs) && ip != ""
    ensures forall i: nat :: i < |Listed(t, ip).hosts| ==> HostTells(Listed(t, ip).hosts[i], fs)
  {
    AddressListed(t, ip);
    if ip !in t.hostsMap { NewHostTells(fs, ip); }
  }

  lemma HostsTold(t: Table, fs: seq<Finding>, f: Finding)
    requires TableOk(t) && f.host != "" && f.host in t.hostsMap
    requires forall i: nat :: i < |t.hosts| ==> HostTells(t.hosts[i], fs)
    ensures forall i: nat :: i < |t.hosts| ==> HostTells(Pushed(t, f).hosts[i], fs + [f])
  {
    forall i: nat | i < |t.hosts| ensures HostTells(Pushed(t, f).hosts[i], fs + [f]) {
      if t.hosts[i].ip == f.host {
        HostTold(t.hosts[i], fs, f);
      } else {
        HostUntold(t.hosts[i], fs, f);
      }
    }
  }

  lemma NoBlankAddress(t: Table, fs: seq<Finding>, i: nat)
    requires Tells(t, fs) && i < |t.hosts|
    ensures t.hosts[i].ip != ""
  {
    DedupeIsUnion([], Each(fs, HostOf));
    assert Addresses(t)[i] == t.hosts[i].ip && t.hosts[i].ip in Elems(Addresses(t));
  }

  lemma PushTells(t: Table, fs: seq<Finding>, f: Finding)
    requires Tells(t, fs)
    ensures Tells(Pushed(t, f), fs + [f])
  {
    AddressesTold(t, fs, f);
    if f.host == "" {
      forall i: nat | i < |t.hosts| ensures HostTells(t.hosts[i], fs + [f]) {
        NoBlankAddress(t, fs, i);
        HostUntold(t.hosts[i], fs, f);
      }
    } else {
      ListedTells(t, fs, f.host);
      HostsTold(Listed(t, f.host), fs, f);
      assert Pushed(t, f) == Pushed(Listed(t, f.host), f);
    }
  }

  /** Whatever the findings, the two-level index tells exactly their flat account. */
  lemma {:induction false} IndexTellsAccount(fs: seq<Finding>)
    ensures Tells(PushedAll(Table([], map[]), fs), fs)
  {
    if fs != [] {
      var init, f := fs[..|fs| - 1], fs[|fs| - 1];
      IndexTellsAccount(init);
      PushTells(PushedAll(Table([], map[]), init), init, f);
      assert fs == init + [f];
    }
  }

  lemma {:induction false} AboutMembers(fs: seq<Finding>, ip: string, port: int, proto: string)
    ensures forall f :: f in About(fs, ip, port, proto) <==>
              f in fs && f.host == ip && f.port == port && f.proto == proto
  {
    if fs != [] {
      var init, f := fs[..|fs| - 1], fs[|fs| - 1];
      assert fs == init + [f];
      AboutMembers(init, ip, port, proto);
    }
  }

  lemma {:induction false} ProverFound(fs: seq<Finding>, p: string)
    ensures p in AllProvers(fs) <==> exists f :: f in fs && p in Provers(f)
  {
    if fs != [] {
      var init, f := fs[..|fs| - 1], fs[|fs| - 1];
      assert fs == init + [f];
      ProverFound(init, p);
    }
  }

  /** The finding lists the proxy, or lists none and was made by it. */
  predicate Vouches(f: Finding, p: string) {
    p in f.proxies || (f.proxies == [] && p == f.primary)
  }

  predicate IsAbout(f: Finding, ip: string, port: int, proto: string) {
    f.host == ip && f.port == port && f.proto == proto
  }

  /** The proxies listed with a port are those of all findings on it, each once. */
  lemma ProxiesAreProvers(fs: seq<Finding>, ip: string, port: int, proto: string)
    ensures var e := Account(port, proto, About(fs, ip, port, proto));
            NoDup(e.proxies) && forall p :: p in e.proxies <==>
              p != "" && exists f :: f in fs && IsAbout(f, ip, port, proto) && Vouches(f, p)
  {
    var about := About(fs, ip, port, proto);
    DedupeIsUnion([], AllProvers(about));
    AboutMembers(fs, ip, port, proto);
    var e := Account(port, proto, about);
    forall p ensures p in e.proxies <==>
        p != "" && exists f :: f in fs && IsAbout(f, ip, port, proto) && Vouches(f, p)
    {
      assert forall f :: Vouches(f, p) <==> p in Provers(f) || (p == "" && Vouches(f, p));
      ProverFound(about, p);
      assert p in e.proxies <==> p in Elems(e.proxies);
      assert p in AllProvers(about) <==> p in Elems(AllProvers(about));
    }
  }

  /** The findings on a port keep their order. */
  lemma {:induction false} AboutInOrder(fs: seq<Finding>, ip: string, port: int, proto: string) returns (at: seq<nat>)
    ensures Rises(at) && forall k: nat :: k in at <==> k < |fs| && IsAbout(fs[k], ip, port, proto)
    ensures Picks(About(fs, ip, port, proto), fs, at)
  {
    at := [];
    if fs != [] {
      var init, last := fs[..|fs| - 1], |fs| - 1;
      at := AboutInOrder(init, ip, port, proto);
      assert forall k: nat :: k < last ==> init[k] == fs[k];
      if IsAbout(fs[last], ip, port, proto) {
        RisesConcat(at, [last], last);
        at := at + [last];
      }
    }
  }

  function TableOf(fs: seq<Finding>): (t: Table)
    ensures TableOk(t)
  {
    PushedAll(Table([], map[]), fs)
  }

  /** These are the findings on a port, in order, and their texts. */
  ghost predicate Listing(
    fs: seq<Finding>, ip: string, port: int, proto: string,
    at: seq<nat>, services: seq<string>, versions: seq<string>, banners: seq<string>)
  {
    && Rises(at) && (forall k: nat :: k in at <==> k < |fs| && IsAbout(fs[k], ip, port, proto))
    && |services| == |versions| == |banners| == |at|
    && forall m :: 0 <= m < |at| ==>
         at[m] < |fs| && services[m] == fs[at[m]].service
         && versions[m] == fs[at[m]].version && banners[m] == fs[at[m]].banner
  }

  lemma AccountTells(fs: seq<Finding>, ip: string, port: int, proto: string)
    returns (at: seq<nat>, services: seq<string>, versions: seq<string>, banners: seq<string>)
    ensures Listing(fs, ip, port, proto, at, services, versions, banners)
    ensures var e := Account(port, proto, About(fs, ip, port, proto));
            FirstKept(e.service, services) && FirstKept(e.version, versions) && FirstKept(e.banner, banners)
  {
    var about := About(fs, ip, port, proto);
    at := AboutInOrder(fs, ip, port, proto);
    services, versions, banners := Each(about, ServiceOf), Each(about, VersionOf), Each(about, BannerOf);
    FirstNonEmptyIsFirst(services);
    FirstNonEmptyIsFirst(versions);
    FirstNonEmptyIsFirst(banners);
  }

  /**
   * The texts of a listed port are the first not empty among the findings on it, in the order they came,
   * and its proxies are those that vouched for any of them, each once.
   */
  lemma EntryTells(fs: seq<Finding>, i: nat, j: nat)
    returns (at: seq<nat>, services: seq<string>, versions: seq<string>, banners: seq<string>)
    requires i < |TableOf(fs).hosts| && j < |TableOf(fs).hosts[i].ports|
    ensures var h := TableOf(fs).hosts[i];
            var e := h.ports[j];
            && Listing(fs, h.ip, e.port, e.proto, at, services, versions, banners)
            && FirstKept(e.service, services) && FirstKept(e.version, versions) && FirstKept(e.banner, banners)
            && NoDup(e.proxies) && (forall p :: p in e.proxies <==>
              p != "" && exists f :: f in fs && IsAbout(f, h.ip, e.port, e.proto) && Vouches(f, p))
  {
    IndexTellsAccount(fs);
    var h := TableOf(fs).hosts[i];
    var e := h.ports[j];
    assert HostTells(h, fs) && Accounted(e, fs, h.ip);
    at, services, versions, banners := AccountTells(fs, h.ip, e.port, e.proto);
    ProxiesAreProvers(fs, h.ip, e.port, e.proto);
  }

  lemma {:induction false} KeysOnMembers(fs: seq<Finding>, ip: string, key: string)
    ensures key in KeysOn(fs, ip) <==> exists f :: f in fs && f.host == ip && Key(f.port, f.proto) == key
  {
    if fs != [] {
      var init, f := fs[..|fs| - 1], fs[|fs| - 1];
      assert fs == init + [f];
      KeysOnMembers(init, ip, key);
    }
  }

  lemma HostListedIff(fs: seq<Finding>, ip: string)
    ensures ip in TableOf(fs).hostsMap <==> ip != "" && exists f :: f in fs && f.host == ip
  {
    IndexTellsAccount(fs);
    AddressListed(TableOf(fs), ip);
    DedupeIsUnion([], Each(fs, HostOf));
    assert ip in Addresses(TableOf(fs)) <==> ip in Elems(Addresses(TableOf(fs)));
    if f :| f in fs && f.host == ip {
      var k :| 0 <= k < |fs| && fs[k] == f;
      assert Each(fs, HostOf)[k] == ip;
    }
  }

  /** A port is listed exactly when a finding is on it: once per host, and each host once. */
  lemma PortListedIff(fs: seq<Finding>, ip: string, port: int, proto: string)
    ensures var t := TableOf(fs);
            (ip in t.hostsMap && Key(port, proto) in t.hosts[t.hostsMap[ip]].portIdx) <==>
            ip != "" && exists f :: f in fs && IsAbout(f, ip, port, proto)
  {
    var t := TableOf(fs);
    HostListedIff(fs, ip);
    if ip in t.hostsMap {
      IndexTellsAccount(fs);
      var h, key := t.hosts[t.hostsMap[ip]], Key(port, proto);
      assert HostTells(h, fs);
      KeyListed(h, key);
      KeyNotEmpty(port, proto);
      DedupeIsUnion([], KeysOn(fs, ip));
      assert key in KeysOf(h) <==> key in Elems(KeysOf(h));
      KeysOnMembers(fs, ip, key);
      forall f | f in fs && f.host == ip ensures Key(f.port, f.proto) == key <==> IsAbout(f, ip, port, proto) {
        KeyIsIdentity(f.port, f.proto, port, proto);
      }
    }
  }

  predicate EntryAbsorbed(e: Entry, f: Finding) {
    && (forall p :: p in Provers(f) ==> p == "" || p in e.proxies)
    && (e.service == "" ==> f.service == "")
    && (e.version == "" ==> f.version == "")
    && (e.banner == "" ==> f.banner == "")
  }

  predicate HostAbsorbed(h: Host, f: Finding)
    requires HostOk(h)
  {
    var key := Key(f.port, f.proto);
    key in h.portIdx && EntryAbsorbed(h.ports[h.portIdx[key]], f)
  }

  /** The table already has all that a finding says. */
  predicate Absorbed(t: Table, f: Finding)
    requires TableOk(t)
  {
    f.host == "" || (f.host in t.hostsMap && HostAbsorbed(t.hosts[t.hostsMap[f.host]], f))
  }

  /** A push changes nothing if and only if the table already has all that the finding says. */
  lemma PushChangesNothingIff(t: Table, f: Finding)
    requires TableOk(t)
    ensures Pushed(t, f) == t <==> Absorbed(t, f)
  {
    if f.host != "" && f.host in t.hostsMap {
      var i := t.hostsMap[f.host];
      var h, key := t.hosts[i], Key(f.port, f.proto);
      var r := Pushed(t, f);
      assert r.hosts[i] == Recorded(h, f);
      if key in h.portIdx {
        var e := h.ports[h.portIdx[key]];
        DedupeAbsorbs(e.proxies, Provers(f));
        assert Recorded(h, f).ports[h.portIdx[key]] == Merge(e, f);
        if Absorbed(t, f) {
          assert Merge(e, f) == e;
          assert Recorded(h, f) == h;
        }
      } else {
        assert |Recorded(h, f).ports| != |h.ports|;
      }
    } else if f.host != "" {
      assert |Pushed(t, f).hosts| != |t.hosts|;
    }
  }

  lemma MergeAbsorbs(e: Entry, f: Finding, g: Finding)
    requires f == g || EntryAbsorbed(e, f)
    ensures EntryAbsorbed(Merge(e, g), f)
  {
    DedupeIsUnion(e.proxies, Provers(g));
    assert forall p :: p in e.proxies ==> p in Elems(e.proxies);
    assert forall p :: p in Provers(g) ==> p in Elems(Provers(g));
    assert forall p :: p in Merge(e, g).proxies <==> p in Elems(Merge(e, g).proxies);
  }

  lemma RecordAbsorbs(h: Host, f: Finding, g: Finding)
    requires HostOk(h) && (f == g || HostAbsorbed(h, f))
    ensures HostOk(Recorded(h, g)) && HostAbsorbed(Recorded(h, g), f)
  {
    RecordedOk(h, g);
    var key := Key(g.port, g.proto);
    if key == Key(f.port, f.proto) {
      if key in h.portIdx {
        MergeAbsorbs(h.ports[h.portIdx[key]], f, g);
      } else {
        DedupeIsUnion([], Provers(g));
        assert forall p :: p in Provers(g) ==> p in Elems(Provers(g));
        assert forall p :: p in NewEntry(g).proxies <==> p in Elems(NewEntry(g).proxies);
      }
    }
  }

  /** What a push adds is there, and what was there stays. */
  lemma PushAbsorbs(t: Table, f: Finding, g: Finding)
    requires TableOk(t) && (f == g || Absorbed(t, f))
    ensures Absorbed(Pushed(t, g), f)
  {
    if f.host != "" && g.host == f.host {
      var u := Listed(t, g.host);
      RecordAbsorbs(u.hosts[u.hostsMap[g.host]], f, g);
    }
  }

  lemma {:induction false} PushAllAbsorbs(t: Table, fs: seq<Finding>, f: Finding)
    requires TableOk(t) && (f in fs || Absorbed(t, f))
    ensures Absorbed(PushedAll(t, fs), f)
  {
    if fs != [] {
      var init, g := fs[..|fs| - 1], fs[|fs| - 1];
      assert fs == init + [g];
      if f in init || Absorbed(t, f) { PushAllAbsorbs(t, init, f); }
      PushAbsorbs(PushedAll(t, init), f, g);
    }
  }

  /** Pushing list after list is pushing them as one. */
  lemma {:induction false} PushedConcat(t: Table, a: seq<Finding>, b: seq<Finding>)
    requires TableOk(t)
    ensures PushedAll(PushedAll(t, a), b) == PushedAll(t, a + b)
  {
    if b == [] {
      assert a + b == a;
    } else {
      assert (a + b)[..|a + b| - 1] == a + b[..|b| - 1];
      PushedConcat(t, a, b[..|b| - 1]);
    }
  }

  /** Pushing again findings already pushed, in any order and number, changes nothing. */
  lemma {:induction false} PushingAgainChangesNothing(t: Table, fs: seq<Finding>, again: seq<Finding>)
    requires TableOk(t) && forall f :: f in again ==> f in fs
    ensures PushedAll(PushedAll(t, fs), again) == PushedAll(t, fs)
  {
    if again != [] {
      var init, f := again[..|again| - 1], again[|again| - 1];
      assert again == init + [f];
      PushingAgainChangesNothing(t, fs, init);
      PushAllAbsorbs(t, fs, f);
      PushChangesNothingIff(PushedAll(t, fs), f);
    }
  }
}
