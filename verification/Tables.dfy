/**
 * The address table and the table of discovered servers against the node's whole history
 * (src/signaling/lan.rs). The specification looks only at the history, never at the tables.
 */
module Tables {
  import opened Wrappers
  import opened Octets
  import opened ServerDatas

  /** Nanoseconds. */
  type Instant = nat

  const ADDRESS_TIMEOUT: nat := 15_000_000_000

  datatype SocketAddr = SocketAddr(ip: Bytes, port: u16)

  datatype AddressEntry = AddressEntry(addr: SocketAddr, lastSeen: Instant)

  type Addresses = map<u64, AddressEntry>
  type Discovered = map<u64, ServerData>

  /** What one event was to a node; `advert` is the server description of a well-formed response. */
  datatype Observation =
    | Accepted(id: u64, from: SocketAddr, at: Instant, advert: Option<ServerData>)
    | Ignored
    | Tick(now: Instant)

  // ----- One event -----

  function AddressesAfter(addresses: Addresses, o: Observation): Addresses {
    match o
    case Accepted(id, from, at, _) => addresses[id := AddressEntry(from, at)]
    case Ignored => addresses
    case Tick(now) => map id | id in addresses && now < addresses[id].lastSeen + ADDRESS_TIMEOUT :: addresses[id]
  }

  function DiscoveredAfter(discovered: Discovered, o: Observation): Discovered {
    if o.Accepted? && o.advert.Some? then discovered[o.id := o.advert.value] else discovered
  }

  /** A tick keeps an entry exactly if the id was heard less than 15 seconds, in nanoseconds, before it. */
  lemma TickKeepsIff(addresses: Addresses, now: Instant, id: u64)
    ensures var after := AddressesAfter(addresses, Tick(now));
            && (id in after <==> id in addresses && now < addresses[id].lastSeen + 15 * 1_000_000_000)
            && (id in after ==> after[id] == addresses[id])
  {
  }

  // ----- The whole history -----

  /**
   * Event `i` is the last datagram accepted from `id`, it gave `entry`, and no tick since came 15 seconds or more
   * after it.
   */
  ghost predicate LiveEntry(history: seq<Observation>, id: u64, i: nat, entry: AddressEntry) {
    && i < |history| && history[i].Accepted? && history[i].id == id
    && entry == AddressEntry(history[i].from, history[i].at)
    && forall j :: i < j < |history| ==>
         && !(history[j].Accepted? && history[j].id == id)
         && !(history[j].Tick? && history[j].now >= entry.lastSeen + ADDRESS_TIMEOUT)
  }

  /** Event `i` is the last well-formed response from `id`. */
  ghost predicate LatestAdvert(history: seq<Observation>, id: u64, i: nat, server: ServerData) {
    && i < |history| && history[i].Accepted? && history[i].id == id && history[i].advert == Some(server)
    && forall j :: i < j < |history| ==> !(history[j].Accepted? && history[j].id == id && history[j].advert.Some?)
  }

  ghost predicate AddressAgrees(history: seq<Observation>, id: u64, entry: Option<AddressEntry>) {
    match entry
    case Some(e) => exists i :: LiveEntry(history, id, i, e)
    case None => forall i, e :: !LiveEntry(history, id, i, e)
  }

  ghost predicate AdvertAgrees(history: seq<Observation>, id: u64, server: Option<ServerData>) {
    match server
    case Some(d) => exists i :: LatestAdvert(history, id, i, d)
    case None => forall i, d :: !LatestAdvert(history, id, i, d)
  }

  function Lookup<T>(table: map<u64, T>, id: u64): Option<T> {
    if id in table then Some(table[id]) else None
  }

  ghost predicate AddressesMatch(history: seq<Observation>, addresses: Addresses) {
    forall id: u64 :: AddressAgrees(history, id, Lookup(addresses, id))
  }

  ghost predicate DiscoveredMatch(history: seq<Observation>, discovered: Discovered) {
    forall id: u64 :: AdvertAgrees(history, id, Lookup(discovered, id))
  }

  // ----- The tables follow the history -----

  /** An entry after one more event: the event's own, or an earlier one that the event neither replaces nor expires. */
  lemma LiveEntryAfter(history: seq<Observation>, o: Observation, id: u64, i: nat, e: AddressEntry)
    ensures LiveEntry(history + [o], id, i, e) <==>
              if i == |history| then o.Accepted? && o.id == id && e == AddressEntry(o.from, o.at)
              else LiveEntry(history, id, i, e) && !(o.Accepted? && o.id == id)
                   && !(o.Tick? && o.now >= e.lastSeen + ADDRESS_TIMEOUT)
  {
    var history' := history + [o];
    assert forall j :: 0 <= j < |history| ==> history'[j] == history[j];
    assert history'[|history|] == o;
  }

  lemma LiveEntryUnique(history: seq<Observation>, id: u64, i: nat, e: AddressEntry, i': nat, e': AddressEntry)
    requires LiveEntry(history, id, i, e) && LiveEntry(history, id, i', e')
    ensures i == i' && e == e'
  {
  }

  lemma AddressKeepsAgreeing(history: seq<Observation>, addresses: Addresses, o: Observation, id: u64)
    requires AddressAgrees(history, id, Lookup(addresses, id))
    ensures AddressAgrees(history + [o], id, Lookup(AddressesAfter(addresses, o), id))
  {
    var after := Lookup(AddressesAfter(addresses, o), id);
    if o.Accepted? && o.id == id {
      LiveEntryAfter(history, o, id, |history|, after.value);
    } else if id in addresses {
      var e := addresses[id];
      var i :| LiveEntry(history, id, i, e);
      LiveEntryAfter(history, o, id, i, e);
      if after == None {
        forall i', e' | LiveEntry(history + [o], id, i', e')
          ensures false
        {
          LiveEntryAfter(history, o, id, i', e');
          LiveEntryUnique(history, id, i, e, i', e');
        }
      }
    } else {
      forall i, e
        ensures !LiveEntry(history + [o], id, i, e)
      {
        LiveEntryAfter(history, o, id, i, e);
      }
    }
  }

  lemma AddressesKeepMatching(history: seq<Observation>, addresses: Addresses, o: Observation)
    requires AddressesMatch(history, addresses)
    ensures AddressesMatch(history + [o], AddressesAfter(addresses, o))
  {
    forall id: u64
      ensures AddressAgrees(history + [o], id, Lookup(AddressesAfter(addresses, o), id))
    {
      AddressKeepsAgreeing(history, addresses, o, id);
    }
  }

  lemma LatestAdvertAfter(history: seq<Observation>, o: Observation, id: u64, i: nat, d: ServerData)
    ensures LatestAdvert(history + [o], id, i, d) <==>
              if i == |history| then o.Accepted? && o.id == id && o.advert == Some(d)
              else LatestAdvert(history, id, i, d) && !(o.Accepted? && o.id == id && o.advert.Some?)
  {
    var history' := history + [o];
    assert forall j :: 0 <= j < |history| ==> history'[j] == history[j];
    assert history'[|history|] == o;
  }

  lemma AdvertKeepsAgreeing(history: seq<Observation>, discovered: Discovered, o: Observation, id: u64)
    requires AdvertAgrees(history, id, Lookup(discovered, id))
    ensures AdvertAgrees(history + [o], id, Lookup(DiscoveredAfter(discovered, o), id))
  {
    if o.Accepted? && o.id == id && o.advert.Some? {
      LatestAdvertAfter(history, o, id, |history|, o.advert.value);
    } else if id in discovered {
      var i :| LatestAdvert(history, id, i, discovered[id]);
      LatestAdvertAfter(history, o, id, i, discovered[id]);
    } else {
      forall i, d
        ensures !LatestAdvert(history + [o], id, i, d)
      {
        LatestAdvertAfter(history, o, id, i, d);
      }
    }
  }

  lemma DiscoveredKeepMatching(history: seq<Observation>, discovered: Discovered, o: Observation)
    requires DiscoveredMatch(history, discovered)
    ensures DiscoveredMatch(history + [o], DiscoveredAfter(discovered, o))
  {
    forall id: u64
      ensures AdvertAgrees(history + [o], id, Lookup(DiscoveredAfter(discovered, o), id))
    {
      AdvertKeepsAgreeing(history, discovered, o, id);
    }
  }

  // ----- Whole runs -----

  function AddressesOf(history: seq<Observation>): Addresses {
    if history == [] then map[]
    else AddressesAfter(AddressesOf(history[..|history| - 1]), history[|history| - 1])
  }

  function DiscoveredOf(history: seq<Observation>): Discovered {
    if history == [] then map[]
    else DiscoveredAfter(DiscoveredOf(history[..|history| - 1]), history[|history| - 1])
  }

  /** After any run the tables are exactly what the history says, whatever the times of its events. */
  lemma {:induction false} TablesRefineHistory(history: seq<Observation>)
    ensures AddressesMatch(history, AddressesOf(history))
    ensures DiscoveredMatch(history, DiscoveredOf(history))
  {
    if history != [] {
      var init, o := history[..|history| - 1], history[|history| - 1];
      TablesRefineHistory(init);
      assert history == init + [o];
      AddressesKeepMatching(init, AddressesOf(init), o);
      DiscoveredKeepMatching(init, DiscoveredOf(init), o);
    }
  }
}
