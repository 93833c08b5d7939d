/** The Hosts tab as the program keeps it: records updated in place behind two indexes. */
module Hosts {
  import opened Sequences
  import opened RunScan
  import opened HostTable

  method DedupeAppendInto(base: seq<string>, add: seq<string>) returns (out: seq<string>)
    ensures out == DedupeAppend(base, add)
  {
    var seen: map<string, bool> := map[];
    for k := 0 to |base|
      invariant forall x :: x in seen && seen[x] <==> x in base[..k]
    {
      seen := seen[base[k] := true];
      assert base[..k + 1] == base[..k] + [base[k]];
    }
    assert base[..|base|] == base;
    out := base;
    for k := 0 to |add|
      invariant out == DedupeAppend(base, add[..k])
      invariant forall x :: x in seen && seen[x] <==> x in out
    {
      var a := add[k];
      assert add[..k + 1][..k] == add[..k];
      if a != "" && !(a in seen && seen[a]) {
        seen := seen[a := true];
        out := out + [a];
      }
    }
    assert add[..|add|] == add;
  }

  class PortEntry {
    const port: int
    const proto: string
    var service: string
    var version: string
    var banner: string
    var proxies: seq<string>
    /** The host whose record lists this entry. */
    ghost const home: string

    constructor (f: Finding, provs: seq<string>)
      requires provs == Provers(f)
      ensures View() == NewEntry(f) && home == f.host
    {
      home := f.host;
      port, proto, service, version, banner := f.port, f.proto, f.service, f.version, f.banner;
      var all := DedupeAppendInto([], provs);
      proxies := all;
    }

    function View(): Entry
      reads this
    {
      Entry(port, proto, service, version, banner, proxies)
    }

    /** A rescan of a known port adds what it brings anew. */
    method MergeIn(f: Finding, provs: seq<string>)
      requires provs == Provers(f)
      modifies this
      ensures View() == Merge(old(View()), f)
    {
      proxies := DedupeAppendInto(proxies, provs);
      if service == "" { service := f.service; }
      if version == "" { version := f.version; }
      if banner == "" { banner := f.banner; }
    }
  }

  class HostRecord {
    const ip: string
    var ports: seq<PortEntry>
    var portIdx: map<string, nat>
    /** The record as a value. */
    ghost var contents: Host

    /** The entries are distinct, this record's own, and with the index they are its contents. */
    ghost predicate Valid()
      reads this, ports
    {
      && NoDup(ports)
      && contents.ip == ip && contents.portIdx == portIdx && |contents.ports| == |ports|
      && forall i: nat :: i < |ports| ==> ports[i].home == ip && contents.ports[i] == ports[i].View()
    }

    constructor (address: string)
      ensures Valid() && ip == address && ports == [] && contents == NewHost(address)
    {
      ip, ports, portIdx, contents := address, [], map[], NewHost(address);
    }

    method MergePort(i: nat, f: Finding, provs: seq<string>)
      requires Valid() && i < |ports| && provs == Provers(f)
      modifies this`contents, ports[i]
      ensures Valid()
      ensures contents == old(contents).(ports := old(contents.ports)[i := Merge(old(contents.ports[i]), f)])
    {
      ports[i].MergeIn(f, provs);
      contents := contents.(ports := contents.ports[i := ports[i].View()]);
    }

    method AddPort(f: Finding, provs: seq<string>)
      requires Valid() && f.host == ip && provs == Provers(f)
      modifies this
      ensures Valid() && fresh(Elems(ports) - old(Elems(ports)))
      ensures contents == old(contents).(
                ports := old(contents.ports) + [NewEntry(f)],
                portIdx := old(portIdx)[Key(f.port, f.proto) := old(|ports|)])
    {
      portIdx := portIdx[Key(f.port, f.proto) := |ports|];
      var pe := new PortEntry(f, provs);
      ports := ports + [pe];
      contents := contents.(ports := contents.ports + [NewEntry(f)], portIdx := portIdx);
    }

    /** One finding recorded on this host: merged into its port, or a new port. */
    method Record(f: Finding)
      requires Valid() && f.host == ip && HostOk(contents)
      modifies this, ports
      ensures Valid() && contents == Recorded(old(contents), f)
      ensures fresh(Elems(ports) - old(Elems(ports)))
    {
      var key := Key(f.port, f.proto);
      var provs := f.proxies;
      if |provs| == 0 && f.primary != "" {
        provs := [f.primary];
      }
      if key in portIdx {
        MergePort(portIdx[key], f, provs);
      } else {
        AddPort(f, provs);
      }
    }
  }

  /** The record has these contents, in entries among the given ones. */
  ghost predicate Holds(h: HostRecord, contents: Host, entries: set<PortEntry>)
    reads h, entries
  {
    (forall p :: p in h.ports ==> p in entries) && h.Valid() && h.contents == contents
  }

  class HostStore {
    var hostsMap: map<string, nat>
    var hostsSlice: seq<HostRecord>
    /** The store as a value, and the entries of all its records. */
    ghost var contents: Table
    ghost var entries: set<PortEntry>

    ghost predicate Shown()
      reads this, hostsSlice, entries
    {
      && contents.hostsMap == hostsMap && |contents.hosts| == |hostsSlice|
      && forall i: nat :: i < |hostsSlice| ==> Holds(hostsSlice[i], contents.hosts[i], entries)
    }

    /** The records are the contents, and both indexes are exact. */
    ghost predicate Valid()
      reads this, hostsSlice, entries
    {
      Shown() && TableOk(contents)
    }

    constructor ()
      ensures Valid() && hostsSlice == [] && entries == {} && contents == Table([], map[])
    {
      hostsMap, hostsSlice, entries, contents := map[], [], {}, Table([], map[]);
    }

    method ClearHosts()
      modifies this
      ensures Valid() && hostsSlice == [] && entries == {} && contents == Table([], map[])
    {
      hostsMap, hostsSlice, entries, contents := map[], [], {}, Table([], map[]);
    }

    /** The address is listed, with a new record if it was not. */
    method ListHost(ip: string)
      requires Valid()
      modifies this
      ensures Valid() && entries == old(entries)
      ensures fresh(Elems(hostsSlice) - old(Elems(hostsSlice)))
      ensures contents == Listed(old(contents), ip)
    {
      if ip !in hostsMap {
        var record := new HostRecord(ip);
        hostsMap := hostsMap[ip := |hostsSlice|];
        hostsSlice := hostsSlice + [record];
        contents := Listed(contents, ip);
        assert contents.hosts == old(contents.hosts) + [NewHost(ip)];
        forall k: nat | k < |hostsSlice| ensures Holds(hostsSlice[k], contents.hosts[k], entries) {
          if k < |hostsSlice| - 1 { assert Holds(old(hostsSlice)[k], old(contents.hosts)[k], entries); }
        }
      }
    }

    method RecordAt(i: nat, f: Finding)
      requires Valid() && i < |hostsSlice| && hostsSlice[i].ip == f.host
      modifies this`contents, this`entries, hostsSlice[i], hostsSlice[i].ports
      ensures Shown() && fresh(entries - old(entries))
      ensures contents == old(contents).(hosts := old(contents.hosts)[i := Recorded(old(contents.hosts[i]), f)])
    {
      assert forall k: nat :: k < |hostsSlice| ==> hostsSlice[k].ip == contents.hosts[k].ip;
      hostsSlice[i].Record(f);
      entries := entries + Elems(hostsSlice[i].ports);
      contents := contents.(hosts := contents.hosts[i := hostsSlice[i].contents]);
      forall k: nat | k < |hostsSlice| ensures Holds(hostsSlice[k], contents.hosts[k], entries) {
        if k != i { assert hostsSlice[k].ip != f.host; }
      }
    }

    /** One finding goes to the record of its host. */
    method Push(f: Finding)
      requires Valid()
      modifies this, hostsSlice, entries
      ensures Valid() && contents == Pushed(old(contents), f)
      ensures fresh(entries - old(entries)) && fresh(Elems(hostsSlice) - old(Elems(hostsSlice)))
    {
      if f.host == "" { return; }
      ListHost(f.host);
      var i := hostsMap[f.host];
      assert Holds(hostsSlice[i], contents.hosts[i], entries);
      RecordAt(i, f);
      assert contents == Pushed(old(contents), f);
    }

    method PushFindings(findings: seq<Finding>)
      requires Valid()
      modifies this, hostsSlice, entries
      ensures Valid() && contents == PushedAll(old(contents), findings)
      ensures fresh(entries - old(entries)) && fresh(Elems(hostsSlice) - old(Elems(hostsSlice)))
    {
      for k := 0 to |findings|
        invariant Valid() && contents == PushedAll(old(contents), findings[..k])
        invariant fresh(entries - old(entries)) && fresh(Elems(hostsSlice) - old(Elems(hostsSlice)))
      {
        Push(findings[k]);
        assert findings[..k + 1][..k] == findings[..k];
      }
      assert findings[..|findings|] == findings;
    }
  }
}
