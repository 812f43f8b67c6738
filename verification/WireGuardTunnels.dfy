/**
 The registry's objects: the map of tunnels and the entries it points to, with the sections that
 `tunnelsMu` makes atomic as methods. Each is proved to be the function of WireGuardRegistry that the
 interleaving proofs are about.
 */
module WireGuardTunnels {
  import opened Options
  import R = WireGuardRegistry

  class TunnelEntry {
    var device: Option<nat>

    constructor (device: Option<nat>)
      ensures this.device == device
    {
      this.device := device;
    }
  }

  ghost function EntriesOf(entries: seq<TunnelEntry>, handles: seq<int>): seq<R.Entry>
    requires |handles| == |entries|
    reads entries
  {
    seq(|entries|, k requires 0 <= k < |entries| reads entries => R.Entry(handles[k], entries[k].device))
  }

  class Tunnels {
    var nextId: int
    var tunnels: map<int, TunnelEntry>

    // Every entry ever registered, the handle it got, and where each registered one stands among them.
    ghost var entries: seq<TunnelEntry>
    ghost var handles: seq<int>
    ghost var places: map<int, nat>

    ghost predicate Valid()
      reads this
    {
      && |handles| == |entries|
      && (forall e, f :: 0 <= e < f < |entries| ==> entries[e] != entries[f])
      && tunnels.Keys == places.Keys
      && (forall h :: h in places ==>
            places[h] < |entries| && entries[places[h]] == tunnels[h] && handles[places[h]] == h)
    }

    ghost function View(): R.Registry
      reads this, entries
      requires Valid()
    {
      R.Registry(nextId, places, EntriesOf(entries, handles))
    }

    constructor ()
      ensures Valid() && View() == R.EMPTY
    {
      nextId, tunnels := 1, map[];
      entries, handles, places := [], [], map[];
    }

    /** The end of a start: the entry, with its device if the start built one, under the next handle. */
    method Register(device: Option<nat>) returns (id: int, entry: TunnelEntry)
      requires Valid()
      modifies this
      ensures Valid() && fresh(entry) && entries == old(entries) + [entry]
      ensures View() == R.Registered(old(View()), device) && id == old(nextId)
    {
      entry := new TunnelEntry(device);
      id := nextId;
      nextId := nextId + 1;
      tunnels := tunnels[id := entry];
      places := places[id := |entries|];
      ghost var before := EntriesOf(entries, handles);
      entries := entries + [entry];
      handles := handles + [id];
      assert EntriesOf(entries, handles) == before + [R.Entry(id, device)];
    }

    /** The lookup of an attach. */
    method Lookup(id: int) returns (entry: Option<TunnelEntry>)
      requires Valid()
      ensures entry.Some? <==> id in View().tunnels
      ensures entry.Some? ==>
                entry.value == entries[View().tunnels[id]] && View().entries[View().tunnels[id]].handle == id
    {
      if id !in tunnels {
        return None;
      }
      return Some(tunnels[id]);
    }

    /** The check-and-set that ends an attach: the code it will answer. */
    method Install(id: int, entry: TunnelEntry, device: nat, ghost e: nat) returns (code: int)
      requires Valid() && e < |entries| && entry == entries[e] && handles[e] == id
      modifies entry
      ensures Valid()
      ensures (View(), code) == R.Installed(old(View()), e, device)
    {
      var registered := id in tunnels && tunnels[id] == entry;
      var occupied := entry.device.Some?;
      assert registered <==> R.StillRegistered(View(), e);
      ghost var before := EntriesOf(entries, handles);
      if registered && !occupied {
        entry.device := Some(device);
        assert EntriesOf(entries, handles) == before[e := before[e].(device := Some(device))];
      }
      if !registered {
        return -7;
      }
      if occupied {
        return -2;
      }
      return 1;
    }

    /** The section of the stop: unregister, then read the device the tunnel owned. */
    method Unregister(id: int) returns (device: Option<nat>)
      requires Valid()
      modifies this
      ensures Valid() && entries == old(entries)
      ensures (View(), device) == R.Unregistered(old(View()), id)
    {
      device := None;
      if id in tunnels {
        device := tunnels[id].device;
      }
      tunnels := tunnels - {id};
      places := places - {id};
    }
  }
}
