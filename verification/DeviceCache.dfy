/** The device cache: three tables over shared device objects, bounded by evicting the least recently seen. */
module DeviceCache {
  import opened Collections
  import opened Wrappers

  datatype Capabilities = Capabilities(supportsEncryption: bool, maxConnections: int, supportedProtocols: seq<string>,
                                       batteryLevel: int)

  datatype Info = Info(id: string, name: string, address: string, serviceUUIDs: seq<string>, rssi: int, lastSeen: int,
                       capabilities: Capabilities)

  /** A paired entry is the cached object of its ID, or an object the cache dropped. */
  datatype Paired = Live | Stale(info: Info)

  /** The tables as values. */
  datatype Cache = Cache(devices: map<string, Info>, connected: set<string>, paired: map<string, Paired>)

  predicate Protected(c: Cache, id: string) {
    id in c.connected || id in c.paired
  }

  // ---- atomic steps ----

  /** Devices leave the cache; their paired entries keep the object as it was. */
  function Drop(c: Cache, ids: set<string>): Cache {
    Cache(c.devices - ids, c.connected - ids,
          map id | id in c.paired ::
            if id in ids && id in c.devices && c.paired[id].Live? then Stale(c.devices[id]) else c.paired[id])
  }

  /** `oldest` is an unprotected device seen no later than any other one, or `None` if there is none. */
  ghost predicate IsOldest(c: Cache, now: int, oldest: Option<string>) {
    match oldest
    case Some(id) =>
      && Evictable(c, now, id)
      && forall other :: Evictable(c, now, other) ==> c.devices[id].lastSeen <= c.devices[other].lastSeen
    case None => forall id :: !Evictable(c, now, id)
  }

  predicate Evictable(c: Cache, now: int, id: string) {
    id in c.devices && !Protected(c, id) && c.devices[id].lastSeen < now
  }

  /** The empty ID marks the absence of a device, so a device of that ID is never evicted. */
  function Evicted(c: Cache, oldest: Option<string>): Cache {
    if oldest.Some? && oldest.value != "" then Drop(c, {oldest.value}) else c
  }

  function Added(c: Cache, maxDevices: int, info: Info, now: int, oldest: Option<string>): Cache {
    var seen := info.(lastSeen := now);
    if info.id in c.devices then c.(devices := c.devices[info.id := seen])
    else
      var d := if |c.devices| >= maxDevices then Evicted(c, oldest) else c;
      d.(devices := d.devices[info.id := seen])
  }

  function Rated(c: Cache, id: string, rssi: int, now: int): Cache {
    if id in c.devices then c.(devices := c.devices[id := c.devices[id].(rssi := rssi, lastSeen := now)]) else c
  }

  function Expired(c: Cache, timeout: int, now: int): set<string> {
    set id | id in c.devices && id !in c.connected
             && now - c.devices[id].lastSeen > (if id in c.paired then timeout * 3 else timeout)
  }

  function Unprotected(c: Cache): set<string> {
    set id | id in c.devices && !Protected(c, id)
  }

  function Connect(c: Cache, id: string): Cache {
    if id in c.devices then c.(connected := c.connected + {id}) else c
  }

  function Pair(c: Cache, id: string): Cache {
    if id in c.devices && id !in c.paired then c.(paired := c.paired[id := Live]) else c
  }

  function Unpair(c: Cache, id: string): Cache {
    if id in c.paired then c.(connected := c.connected - {id}, paired := c.paired - {id}) else c
  }

  // ---- the tables ----

  /** A device on the heap: one structure, overwritten in place. */
  class Device {
    var info: Info

    constructor (info: Info)
      ensures this.info == info
    {
      this.info := info;
    }
  }

  type Objects = map<string, Device>

  /** Every entry is filed under its own ID, and a connected entry is the very object cached under its ID. */
  ghost predicate Filed(devices: Objects, connected: Objects, paired: Objects)
    reads devices.Values, paired.Values
  {
    && (forall id :: id in devices ==> devices[id].info.id == id)
    && (forall id :: id in paired ==> paired[id].info.id == id)
    && (forall id :: id in connected ==> id in devices && connected[id] == devices[id])
  }

  ghost function Shown(devices: Objects, id: string, d: Device): Paired
    reads d
  {
    if id in devices && devices[id] == d then Live else Stale(d.info)
  }

  /** What the three tables show. */
  ghost function ViewOf(devices: Objects, connected: Objects, paired: Objects): Cache
    reads devices.Values, paired.Values
  {
    Cache(map id | id in devices :: devices[id].info, connected.Keys,
          map id | id in paired :: Shown(devices, id, paired[id]))
  }

  lemma DropView(devices: Objects, connected: Objects, paired: Objects, ids: set<string>)
    requires Filed(devices, connected, paired)
    ensures Filed(devices - ids, connected - ids, paired)
    ensures ViewOf(devices - ids, connected - ids, paired) == Drop(ViewOf(devices, connected, paired), ids)
  {
  }

  lemma ConnectView(devices: Objects, connected: Objects, paired: Objects, id: string)
    requires Filed(devices, connected, paired) && id in devices
    ensures Filed(devices, connected[id := devices[id]], paired)
    ensures ViewOf(devices, connected[id := devices[id]], paired) == Connect(ViewOf(devices, connected, paired), id)
  {
    hide Shown;
  }

  lemma PairView(devices: Objects, connected: Objects, paired: Objects, id: string)
    requires Filed(devices, connected, paired) && id in devices && id !in paired
    ensures Filed(devices, connected, paired[id := devices[id]])
    ensures ViewOf(devices, connected, paired[id := devices[id]]) == Pair(ViewOf(devices, connected, paired), id)
  {
    assert Shown(devices, id, devices[id]) == Live;
    hide Shown;
  }

  lemma UnpairView(devices: Objects, connected: Objects, paired: Objects, id: string)
    requires Filed(devices, connected, paired) && id in paired
    ensures Filed(devices, connected - {id}, paired - {id})
    ensures ViewOf(devices, connected - {id}, paired - {id}) == Unpair(ViewOf(devices, connected, paired), id)
  {
    hide Shown;
  }

  /** A new object under an uncached ID; paired entries of that ID keep the object they have. */
  lemma InsertView(devices: Objects, connected: Objects, paired: Objects, id: string, d: Device)
    requires Filed(devices, connected, paired) && id !in devices && d.info.id == id && d !in paired.Values
    ensures Filed(devices[id := d], connected, paired)
    ensures var c := ViewOf(devices, connected, paired);
            ViewOf(devices[id := d], connected, paired) == c.(devices := c.devices[id := d.info])
  {
  }

  class Manager {
    const maxDevices: int
    const cacheTimeout: int
    var devices: Objects
    var connected: Objects
    var paired: Objects

    constructor (maxDevices: int, cacheTimeout: int)
      ensures Valid() && View() == Cache(map[], {}, map[])
      ensures this.maxDevices == maxDevices && this.cacheTimeout == cacheTimeout && fresh(Repr())
    {
      this.maxDevices, this.cacheTimeout := maxDevices, cacheTimeout;
      devices, connected, paired := map[], map[], map[];
    }

    function Repr(): set<Device>
      reads this
    {
      devices.Values + paired.Values
    }

    ghost predicate Valid()
      reads this, Repr()
    {
      Filed(devices, connected, paired)
    }

    ghost function View(): Cache
      reads this, Repr()
    {
      ViewOf(devices, connected, paired)
    }

    function At(id: string): set<Device>
      reads this
    {
      if id in devices then {devices[id]} else {}
    }

    lemma CacheSize()
      ensures |View().devices| == |devices|
    {
      assert View().devices.Keys == devices.Keys;
    }

    predicate Candidate(id: string, now: int)
      reads this, Repr()
    {
      id in devices && id !in connected && id !in paired && devices[id].info.lastSeen < now
    }

    lemma CandidatesEvictable(now: int)
      requires Valid()
      ensures forall id :: Candidate(id, now) <==> Evictable(View(), now, id)
      ensures forall id :: id in devices ==> View().devices[id] == devices[id].info
    {
    }

    /** Scan for the least recently seen unprotected device; the empty ID stands for none. */
    method FindOldest(now: int) returns (oldestID: string, ghost oldest: Option<string>)
      requires Valid()
      ensures IsOldest(View(), now, oldest)
      ensures oldestID == match oldest case Some(id) => id case None => ""
      ensures oldest == None <==>
              forall id :: id in devices ==> id in connected || id in paired || devices[id].info.lastSeen >= now
      ensures oldest != None ==>
                && oldestID in devices && oldestID !in connected && oldestID !in paired
                && devices[oldestID].info.lastSeen < now
                && forall id :: id in devices && id !in connected && id !in paired ==>
                     devices[oldestID].info.lastSeen <= devices[id].info.lastSeen
    {
      var oldestTime := now;
      oldestID, oldest := "", None;
      var todo := devices.Keys;
      while todo != {}
        invariant todo <= devices.Keys
        invariant oldestID == match oldest case Some(id) => id case None => ""
        invariant oldest.None? ==> oldestTime == now
        invariant oldest.Some? ==> Candidate(oldestID, now) && oldestTime == devices[oldestID].info.lastSeen
        invariant forall id :: Candidate(id, now) && id !in todo ==>
          oldest.Some? && oldestTime <= devices[id].info.lastSeen
        decreases |todo|
      {
        var id :| id in todo;
        todo := todo - {id};
        if id in connected || id in paired {
          continue;
        }
        if devices[id].info.lastSeen < oldestTime {
          oldestTime, oldestID := devices[id].info.lastSeen, id;
          oldest := Some(id);
        }
      }
      CandidatesEvictable(now);
    }

    /** `oldest` is what the scan settles on, whether or not it is then evicted. */
    method RemoveOldestDevice(now: int) returns (ghost oldest: Option<string>)
      requires Valid()
      modifies `devices
      ensures Valid() && IsOldest(old(View()), now, oldest)
      ensures View() == Evicted(old(View()), oldest) && devices.Keys <= old(devices.Keys)
      ensures devices == if oldest.Some? && oldest.value != "" then old(devices) - {oldest.value} else old(devices)
    {
      hide IsOldest, Drop, Filed, ViewOf;
      var oldestID: string;
      oldestID, oldest := FindOldest(now);
      if oldestID != "" {
        assert oldestID !in connected by { CandidatesEvictable(now); }
        DropView(devices, connected, paired, {oldestID});
        assert connected - {oldestID} == connected;
        devices := devices - {oldestID};
      }
    }

    /** Overwriting one cached object shows in every table that holds it. */
    twostate lemma Overwritten(id: string)
      requires old(Valid()) && id in devices && devices[id].info.id == id
      requires devices == old(devices) && connected == old(connected) && paired == old(paired)
      requires forall other :: other in devices && other != id ==> unchanged(devices[other])
      requires forall other :: other in paired && paired[other] != devices[id] ==> unchanged(paired[other])
      ensures Valid() && View() == old(View()).(devices := old(View()).devices[id := devices[id].info])
    {
      forall other | other in paired
        ensures View().paired[other] == old(View()).paired[other]
      {
        assert Shown(devices, other, paired[other]) == old(Shown(devices, other, paired[other]));
      }
    }

    method Insert(info: Info)
      requires Valid() && info.id !in devices
      modifies `devices
      ensures Valid() && View() == old(View()).(devices := old(View()).devices[info.id := info])
      ensures info.id in devices && fresh(devices[info.id]) && devices[info.id].info == info
      ensures devices == old(devices)[info.id := devices[info.id]]
    {
      hide Filed, ViewOf;
      var device := new Device(info);
      InsertView(devices, connected, paired, info.id, device);
      devices := devices[info.id := device];
    }

    method Overwrite(info: Info)
      requires Valid() && info.id in devices
      modifies devices[info.id]
      ensures Valid() && View() == old(View()).(devices := old(View()).devices[info.id := info])
      ensures devices[info.id].info == info
    {
      devices[info.id].info := info;
      Overwritten(info.id);
    }

    method AddDevice(info: Info, now: int) returns (ghost oldest: Option<string>)
      requires Valid()
      modifies `devices, At(info.id)
      ensures Valid() && View() == Added(old(View()), maxDevices, info, now, oldest)
      ensures info.id !in old(devices) && |old(devices)| >= maxDevices ==> IsOldest(old(View()), now, oldest)
      ensures info.id in devices && devices[info.id].info == info.(lastSeen := now)
      ensures info.id in old(devices) ==> devices == old(devices)
      ensures info.id !in old(devices) ==> fresh(devices[info.id])
      ensures forall id :: id in devices && id != info.id ==> id in old(devices) && devices[id] == old(devices)[id]
      ensures forall id :: id in old(devices) && id !in devices ==> |old(devices)| >= maxDevices && oldest == Some(id)
    {
      hide IsOldest, Drop, Evicted, Filed;
      oldest := None;
      var seen := info.(lastSeen := now);
      if info.id in devices {
        Overwrite(seen);
      } else {
        CacheSize();
        if |devices| >= maxDevices {
          oldest := RemoveOldestDevice(now);
        }
        Insert(seen);
      }
    }

    /** Whether the device was cached. */
    method RemoveDevice(id: string) returns (found: bool)
      requires Valid()
      modifies `devices, `connected
      ensures Valid() && View() == Drop(old(View()), {id}) && found == (id in old(devices))
      ensures devices == old(devices) - {id} && connected == old(connected) - {id}
    {
      found := id in devices;
      DropView(devices, connected, paired, {id});
      if found {
        devices := devices - {id};
        connected := connected - {id};
      } else {
        assert devices - {id} == devices && connected - {id} == connected;
      }
    }

    method MarkDeviceConnected(id: string) returns (found: bool)
      requires Valid()
      modifies `connected
      ensures Valid() && View() == Connect(old(View()), id) && found == (id in devices)
      ensures connected == if found then old(connected)[id := devices[id]] else old(connected)
    {
      hide Filed;
      found := id in devices;
      if found {
        ConnectView(devices, connected, paired, id);
        connected := connected[id := devices[id]];
      }
    }

    method MarkDeviceDisconnected(id: string) returns (found: bool)
      requires Valid()
      modifies `connected
      ensures Valid() && View() == old(View()).(connected := old(View()).connected - {id})
      ensures found == (id in old(connected)) && connected == old(connected) - {id}
    {
      found := id in connected;
      if found {
        connected := connected - {id};
      }
    }

    method PairDevice(id: string) returns (ok: bool)
      requires Valid()
      modifies `paired
      ensures Valid() && View() == Pair(old(View()), id) && ok == (id in devices && id !in old(paired))
      ensures paired == if ok then old(paired)[id := devices[id]] else old(paired)
    {
      hide Filed;
      ok := id in devices && id !in paired;
      if ok {
        PairView(devices, connected, paired, id);
        paired := paired[id := devices[id]];
      }
    }

    method UnpairDevice(id: string) returns (ok: bool)
      requires Valid()
      modifies `connected, `paired
      ensures Valid() && View() == Unpair(old(View()), id) && ok == (id in old(paired))
      ensures paired == old(paired) - {id} && connected == if ok then old(connected) - {id} else old(connected)
    {
      hide Filed;
      ok := id in paired;
      if ok {
        UnpairView(devices, connected, paired, id);
        if id in connected {
          connected := connected - {id};
        }
        assert connected == old(connected) - {id};
        paired := paired - {id};
      }
    }

    method UpdateDeviceRSSI(id: string, rssi: int, now: int) returns (found: bool)
      requires Valid()
      modifies At(id)
      ensures Valid() && View() == Rated(old(View()), id, rssi, now) && found == (id in devices)
      ensures found ==> devices[id].info == old(devices[id].info).(rssi := rssi, lastSeen := now)
    {
      found := id in devices;
      if found {
        Overwrite(devices[id].info.(rssi := rssi, lastSeen := now));
      }
    }

    method FindExpired(now: int) returns (expired: set<string>)
      ensures expired == Expired(View(), cacheTimeout, now)
    {
      var todo := devices.Keys;
      expired := {};
      while todo != {}
        invariant todo <= devices.Keys
        invariant expired == Expired(View(), cacheTimeout, now) - todo
        decreases |todo|
      {
        var id :| id in todo;
        todo := todo - {id};
        if id in connected {
          continue;
        }
        if id in paired {
          if now - devices[id].info.lastSeen > cacheTimeout * 3 {
            expired := expired + {id};
          }
          continue;
        }
        if now - devices[id].info.lastSeen > cacheTimeout {
          expired := expired + {id};
        }
      }
    }

    lemma ExpiredObjects(now: int)
      ensures forall id :: id in Expired(View(), cacheTimeout, now)
                           <==> id in devices && id !in connected
                                && now - devices[id].info.lastSeen
                                   > if id in paired then 3 * cacheTimeout else cacheTimeout
    {
    }

    /** One round of the periodic cleanup. */
    method CleanupExpiredDevices(now: int)
      requires Valid()
      modifies `devices, `connected
      ensures Valid() && View() == Drop(old(View()), Expired(old(View()), cacheTimeout, now))
      ensures forall id :: id in old(devices) ==>
                var limit := if id in paired then 3 * cacheTimeout else cacheTimeout;
                (id in devices <==> id in old(connected) || now - old(devices[id].info.lastSeen) <= limit)
      ensures forall id :: id in devices ==> id in old(devices) && devices[id] == old(devices)[id]
      ensures connected == old(connected)
    {
      hide Filed, ViewOf, Drop, Expired;
      var expired := FindExpired(now);
      ExpiredObjects(now);
      assert connected - expired == connected;
      DropView(devices, connected, paired, expired);
      devices := devices - expired;
      connected := connected - expired;
    }

    method KeepProtected() returns (kept: Objects)
      ensures forall id :: id in kept <==> id in devices && (id in connected || id in paired)
      ensures forall id :: id in kept ==> kept[id] == devices[id]
    {
      var todo := devices.Keys;
      kept := map[];
      while todo != {}
        invariant todo <= devices.Keys
        invariant forall id :: id in kept <==> id in devices && id !in todo && (id in connected || id in paired)
        invariant forall id :: id in kept ==> kept[id] == devices[id]
        decreases |todo|
      {
        var id :| id in todo;
        todo := todo - {id};
        if id in connected || id in paired {
          kept := kept[id := devices[id]];
        }
      }
    }

    lemma ProtectedKept(kept: Objects)
      requires forall id :: id in kept <==> id in devices && (id in connected || id in paired)
      requires forall id :: id in kept ==> kept[id] == devices[id]
      ensures kept == devices - Unprotected(View()) && connected == connected - Unprotected(View())
    {
    }

    /** Only connected and paired devices stay. */
    method ClearDeviceCache()
      requires Valid()
      modifies `devices
      ensures Valid() && View() == Drop(old(View()), Unprotected(old(View())))
      ensures forall id :: id in devices <==> id in old(devices) && (id in connected || id in paired)
      ensures forall id :: id in devices ==> devices[id] == old(devices)[id]
    {
      hide Filed, ViewOf, Drop, Unprotected;
      var kept := KeepProtected();
      ghost var gone := Unprotected(View());
      ProtectedKept(kept);
      DropView(devices, connected, paired, gone);
      devices := kept;
    }

    /** Stopping the manager empties the cache; the paired table stays. */
    method Stop()
      requires Valid()
      modifies `devices, `connected
      ensures Valid() && View() == Drop(old(View()), old(devices.Keys))
      ensures devices == map[] && connected == map[]
    {
      DropView(devices, connected, paired, devices.Keys);
      assert devices - devices.Keys == map[] && connected - devices.Keys == map[];
      devices, connected := map[], map[];
    }

    /** Copies of the connected devices, in no particular order. */
    method GetConnectedDevices() returns (list: seq<Info>)
      requires Valid()
      ensures forall i :: 0 <= i < |list| ==> list[i].id in View().connected && list[i] == View().devices[list[i].id]
      ensures forall id :: id in View().connected ==> exists i :: 0 <= i < |list| && list[i].id == id
      ensures forall i, j :: 0 <= i < j < |list| ==> list[i].id != list[j].id
    {
      var todo := connected.Keys;
      list := [];
      while todo != {}
        invariant todo <= connected.Keys
        invariant forall i :: 0 <= i < |list| ==>
          list[i].id in connected && list[i].id !in todo && list[i] == connected[list[i].id].info
        invariant forall id :: id in connected && id !in todo ==> exists i :: 0 <= i < |list| && list[i].id == id
        invariant forall i, j :: 0 <= i < j < |list| ==> list[i].id != list[j].id
        decreases |todo|
      {
        var id :| id in todo;
        todo := todo - {id};
        ghost var before := list;
        list := list + [connected[id].info];
        assert list[|before|].id == id;
        assert forall i :: 0 <= i < |before| ==> list[i] == before[i];
      }
    }
  }

  // ---- runs ----

  /** `Seen` is AddDevice; its `oldest` is what the scan for an eviction settles on. */
  datatype Event = Seen(info: Info, at: int, oldest: Option<string>)
                 | Removed(id: string)
                 | Connected(id: string)
                 | Disconnected(id: string)
                 | PairedWith(id: string)
                 | Unpaired(id: string)
                 | Rssi(id: string, rssi: int, at: int)
                 | Sweep(timeout: int, at: int)
                 | Clear
                 | Stopped

  ghost predicate Possible(c: Cache, maxDevices: int, e: Event) {
    e.Seen? && e.info.id !in c.devices && |c.devices| >= maxDevices ==> IsOldest(c, e.at, e.oldest)
  }

  function Step(c: Cache, maxDevices: int, e: Event): Cache {
    match e
    case Seen(info, at, oldest) => Added(c, maxDevices, info, at, oldest)
    case Removed(id) => Drop(c, {id})
    case Connected(id) => Connect(c, id)
    case Disconnected(id) => c.(connected := c.connected - {id})
    case PairedWith(id) => Pair(c, id)
    case Unpaired(id) => Unpair(c, id)
    case Rssi(id, rssi, at) => Rated(c, id, rssi, at)
    case Sweep(timeout, at) => Drop(c, Expired(c, timeout, at))
    case Clear => Drop(c, Unprotected(c))
    case Stopped => Drop(c, c.devices.Keys)
  }

  function Run(maxDevices: int, events: seq<Event>): Cache {
    if events == [] then Cache(map[], {}, map[])
    else Step(Run(maxDevices, events[..|events| - 1]), maxDevices, events[|events| - 1])
  }

  ghost predicate AllPossible(maxDevices: int, events: seq<Event>) {
    forall i :: 0 <= i < |events| ==> Possible(Run(maxDevices, events[..i]), maxDevices, events[i])
  }

  lemma PossiblePrefix(maxDevices: int, events: seq<Event>, n: nat)
    requires AllPossible(maxDevices, events) && n <= |events|
    ensures AllPossible(maxDevices, events[..n])
  {
    hide Possible, Run;
    assert forall i :: 0 <= i < n ==> events[..n][..i] == events[..i];
  }

  // ---- the views ----

  predicate Lawful(c: Cache) {
    && c.connected <= c.devices.Keys
    && (forall id :: id in c.devices ==> c.devices[id].id == id)
    && (forall id :: id in c.paired && c.paired[id].Live? ==> id in c.devices)
  }

  lemma DropKeepsLawful(c: Cache, ids: set<string>)
    requires Lawful(c)
    ensures Lawful(Drop(c, ids))
  {
  }

  lemma StepKeepsLawful(c: Cache, maxDevices: int, e: Event)
    requires Lawful(c)
    ensures Lawful(Step(c, maxDevices, e))
  {
    hide Drop, Expired, Unprotected;
    match e
    case Seen(_, _, oldest) => if oldest.Some? { DropKeepsLawful(c, {oldest.value}); }
    case Removed(id) => DropKeepsLawful(c, {id});
    case Sweep(timeout, at) => DropKeepsLawful(c, Expired(c, timeout, at));
    case Clear => DropKeepsLawful(c, Unprotected(c));
    case Stopped => DropKeepsLawful(c, c.devices.Keys);
    case _ =>
  }

  lemma {:induction false} RunKeepsLawful(maxDevices: int, events: seq<Event>)
    ensures Lawful(Run(maxDevices, events))
  {
    hide Step;
    if events != [] {
      RunKeepsLawful(maxDevices, events[..|events| - 1]);
      StepKeepsLawful(Run(maxDevices, events[..|events| - 1]), maxDevices, events[|events| - 1]);
    }
  }

  /** The latest news of a device, whatever the cache did meanwhile. */
  function Latest(events: seq<Event>, id: string): Option<Info> {
    if events == [] then None
    else
      var before := Latest(events[..|events| - 1], id);
      match events[|events| - 1]
      case Seen(info, at, _) => if info.id == id then Some(info.(lastSeen := at)) else before
      case Rssi(other, rssi, at) =>
        if other == id && before.Some? then Some(before.value.(rssi := rssi, lastSeen := at)) else before
      case _ => before
  }

  /** Whatever is cached is the latest news; so the connected view, and the paired view of a live entry, never show
      anything older. */
  lemma {:induction false} CacheShowsLatest(maxDevices: int, events: seq<Event>, id: string)
    requires id in Run(maxDevices, events).devices
    ensures Latest(events, id) == Some(Run(maxDevices, events).devices[id])
  {
    var n := |events| - 1;
    var c := Run(maxDevices, events[..n]);
    if id in c.devices {
      CacheShowsLatest(maxDevices, events[..n], id);
    }
    StepShows(c, maxDevices, events[n], id);
  }

  /** What one step does to a device that is cached afterwards. */
  lemma StepShows(c: Cache, maxDevices: int, e: Event, id: string)
    requires id in Step(c, maxDevices, e).devices
    ensures
      var after := Step(c, maxDevices, e).devices[id];
      if e.Seen? && e.info.id == id then after == e.info.(lastSeen := e.at)
      else id in c.devices
           && after == if e.Rssi? && e.id == id then c.devices[id].(rssi := e.rssi, lastSeen := e.at) else c.devices[id]
  {
    hide Expired, Unprotected;
  }

  /** A paired entry goes stale exactly when its device leaves the cache. */
  lemma StaleIffDropped(c: Cache, maxDevices: int, e: Event, id: string)
    requires Lawful(c) && Possible(c, maxDevices, e)
    requires id in c.paired && id in Step(c, maxDevices, e).paired
    ensures var after := Step(c, maxDevices, e);
            && (after.paired[id].Live? <==> c.paired[id].Live? && id in after.devices)
            && (c.paired[id].Stale? ==> after.paired[id] == c.paired[id])
            && (c.paired[id].Live? && after.paired[id].Stale? ==> after.paired[id].info == c.devices[id])
  {
    hide Expired, Unprotected;
  }

  /** A stale entry shows what it showed, through every run, until the device is unpaired; caching it again is no
      help. */
  lemma {:induction false} StaleUntilUnpaired(maxDevices: int, events: seq<Event>, more: seq<Event>, id: string)
    requires AllPossible(maxDevices, events + more)
    requires id in Run(maxDevices, events).paired && Run(maxDevices, events).paired[id].Stale?
    requires forall i :: 0 <= i < |more| ==> more[i] != Unpaired(id)
    ensures id in Run(maxDevices, events + more).paired
    ensures Run(maxDevices, events + more).paired[id] == Run(maxDevices, events).paired[id]
  {
    hide Run, AllPossible;
    if more == [] {
      assert events + more == events;
    } else {
      var n := |more| - 1;
      var all := events + more;
      assert all[..|all| - 1] == events + more[..n] && all[|all| - 1] == more[n];
      PossiblePrefix(maxDevices, all, |all| - 1);
      StaleUntilUnpaired(maxDevices, events, more[..n], id);
      StaleStays(maxDevices, all, id, |all| - 1);
    }
  }

  lemma StaleStays(maxDevices: int, events: seq<Event>, id: string, n: nat)
    requires |events| == n + 1 && AllPossible(maxDevices, events) && events[n] != Unpaired(id)
    requires id in Run(maxDevices, events[..n]).paired && Run(maxDevices, events[..n]).paired[id].Stale?
    ensures id in Run(maxDevices, events).paired
    ensures Run(maxDevices, events).paired[id] == Run(maxDevices, events[..n]).paired[id]
  {
    var c := Run(maxDevices, events[..n]);
    RunKeepsLawful(maxDevices, events[..n]);
    assert Possible(c, maxDevices, events[n]);
    hide AllPossible, Possible, Lawful, Step;
    StaysPaired(c, maxDevices, events[n], id);
    StaleIffDropped(c, maxDevices, events[n], id);
  }

  lemma StaysPaired(c: Cache, maxDevices: int, e: Event, id: string)
    requires id in c.paired && e != Unpaired(id)
    ensures id in Step(c, maxDevices, e).paired
  {
    hide Expired, Unprotected;
  }

  // ---- when the paired view shows old data ----

  predicate Timed(e: Event) {
    e.Seen? || e.Rssi?
  }

  function At(e: Event): int
    requires Timed(e)
  {
    match e
    case Seen(_, at, _) => at
    case Rssi(_, _, at) => at
  }

  /** The clock stands at a later moment for each sighting. */
  ghost predicate Clocked(events: seq<Event>) {
    forall i, j :: 0 <= i < j < |events| && Timed(events[i]) && Timed(events[j]) ==> At(events[i]) < At(events[j])
  }

  lemma {:induction false} LastSeenEarlier(maxDevices: int, events: seq<Event>, now: int)
    requires forall i :: 0 <= i < |events| && Timed(events[i]) ==> At(events[i]) < now
    ensures forall id :: id in Run(maxDevices, events).devices ==> Run(maxDevices, events).devices[id].lastSeen < now
  {
    if events != [] {
      var n := |events| - 1;
      LastSeenEarlier(maxDevices, events[..n], now);
      forall id | id in Run(maxDevices, events).devices
        ensures Run(maxDevices, events).devices[id].lastSeen < now
      {
        StepShows(Run(maxDevices, events[..n]), maxDevices, events[n], id);
      }
    }
  }

  /** What GetPairedDevices shows of a paired device. */
  function PairedInfo(c: Cache, id: string): Info
    requires id in c.paired && (c.paired[id].Live? ==> id in c.devices)
  {
    if c.paired[id].Live? then c.devices[id] else c.paired[id].info
  }

  /** News of a device: it is seen, or its strength is measured. */
  predicate IsNews(e: Event, id: string) {
    (e.Seen? && e.info.id == id) || (e.Rssi? && e.id == id)
  }

  predicate StaleIn(c: Cache, id: string) {
    id in c.paired && c.paired[id].Stale?
  }

  /** The paired entry has been stale since before some news of its device. */
  ghost predicate Missed(maxDevices: int, events: seq<Event>, id: string) {
    exists i: nat :: i < |events| && IsNews(events[i], id) && StaleSince(maxDevices, events, id, i)
  }

  ghost predicate StaleSince(maxDevices: int, events: seq<Event>, id: string, i: nat)
    requires i <= |events|
  {
    forall j :: i <= j <= |events| ==> StaleIn(Run(maxDevices, events[..j]), id)
  }

  lemma MissedUnfolds(maxDevices: int, events: seq<Event>, id: string, n: nat)
    requires |events| == n + 1
    ensures Missed(maxDevices, events, id)
            <==> && StaleIn(Run(maxDevices, events), id)
                 && (Missed(maxDevices, events[..n], id)
                     || (IsNews(events[n], id) && StaleIn(Run(maxDevices, events[..n]), id)))
  {
    hide Run, IsNews, StaleIn;
    assert events[..n + 1] == events;
    assert forall j :: 0 <= j <= n ==> events[..n][..j] == events[..j];
    if Missed(maxDevices, events, id) {
      var i: nat :| i < |events| && IsNews(events[i], id) && StaleSince(maxDevices, events, id, i);
      if i < n {
        assert IsNews(events[..n][i], id) && StaleSince(maxDevices, events[..n], id, i);
      }
    }
    if StaleIn(Run(maxDevices, events), id) {
      if Missed(maxDevices, events[..n], id) {
        var i: nat :| i < n && IsNews(events[..n][i], id) && StaleSince(maxDevices, events[..n], id, i);
        assert IsNews(events[i], id) && StaleSince(maxDevices, events, id, i);
      }
      if IsNews(events[n], id) && StaleIn(Run(maxDevices, events[..n]), id) {
        assert StaleSince(maxDevices, events, id, n);
      }
    }
  }

  lemma {:induction false} LatestEarlier(events: seq<Event>, id: string, now: int)
    requires forall i :: 0 <= i < |events| && Timed(events[i]) ==> At(events[i]) < now
    ensures Latest(events, id).Some? ==> Latest(events, id).value.lastSeen < now
  {
    if events != [] {
      var n := |events| - 1;
      assert Timed(events[n]) ==> At(events[n]) < now;
      LatestEarlier(events[..n], id, now);
    }
  }

  /** How a stale entry came about: it was stale already, or it kept the device that left the cache. */
  lemma StaleStep(maxDevices: int, events: seq<Event>, id: string, n: nat)
    requires |events| == n + 1 && AllPossible(maxDevices, events) && StaleIn(Run(maxDevices, events), id)
    ensures AllPossible(maxDevices, events[..n])
    ensures var c, shown := Run(maxDevices, events[..n]), Run(maxDevices, events).paired[id];
            && id in c.paired
            && (c.paired[id].Stale? ==> shown == c.paired[id])
            && (c.paired[id].Live? ==> id in c.devices && shown == Stale(c.devices[id]) && !IsNews(events[n], id))
  {
    var c := Run(maxDevices, events[..n]);
    PossiblePrefix(maxDevices, events, n);
    RunKeepsLawful(maxDevices, events[..n]);
    assert Possible(c, maxDevices, events[n]);
    WasPaired(c, maxDevices, events[n], id);
    hide AllPossible, Possible, Lawful, Step;
    StaleIffDropped(c, maxDevices, events[n], id);
  }

  /** A stale entry shows the latest news of its device, or older ones exactly if it missed some. */
  lemma {:induction false} StaleShows(maxDevices: int, events: seq<Event>, id: string)
    requires AllPossible(maxDevices, events) && Clocked(events) && StaleIn(Run(maxDevices, events), id)
    ensures Latest(events, id).Some?
    ensures var shown, latest := Run(maxDevices, events).paired[id].info, Latest(events, id).value;
            if Missed(maxDevices, events, id) then shown.lastSeen < latest.lastSeen else shown == latest
    decreases |events|
  {
    if events == [] {
      assert false;
    }
    hide AllPossible, Clocked, Missed, Run;
    var n := |events| - 1;
    var before, e := events[..n], events[n];
    ClockedPrefix(events, n);
    MissedUnfolds(maxDevices, events, id, n);
    StaleStep(maxDevices, events, id, n);
    if Run(maxDevices, before).paired[id].Stale? {
      StaleShows(maxDevices, before, id);
      if IsNews(e, id) {
        LatestEarlier(before, id, At(e));
      }
    } else {
      CacheShowsLatest(maxDevices, before, id);
    }
  }

  lemma ClockedPrefix(events: seq<Event>, n: nat)
    requires Clocked(events) && n < |events|
    ensures Clocked(events[..n])
    ensures Timed(events[n]) ==> forall i :: 0 <= i < n && Timed(events[..n][i]) ==> At(events[..n][i]) < At(events[n])
  {
    assert forall i :: 0 <= i < n ==> events[..n][i] == events[i];
  }

  /** What is stale after an event was paired before it. */
  lemma WasPaired(c: Cache, maxDevices: int, e: Event, id: string)
    requires Lawful(c) && StaleIn(Step(c, maxDevices, e), id)
    ensures id in c.paired && (c.paired[id].Live? ==> id in c.devices && !IsNews(e, id))
  {
    hide Expired, Unprotected;
  }

  /** The paired view shows the latest news of a paired device exactly unless its entry went stale and news of the
      device came since; then what it shows is older. */
  lemma PairedShowsLatestIffNotMissed(maxDevices: int, events: seq<Event>, id: string)
    requires AllPossible(maxDevices, events) && Clocked(events) && id in Run(maxDevices, events).paired
    ensures Run(maxDevices, events).paired[id].Live? ==> id in Run(maxDevices, events).devices
    ensures Latest(events, id).Some?
    ensures var shown, latest := PairedInfo(Run(maxDevices, events), id), Latest(events, id).value;
            && (shown == latest <==> !Missed(maxDevices, events, id))
            && (shown != latest ==> shown.lastSeen < latest.lastSeen)
  {
    RunKeepsLawful(maxDevices, events);
    if Run(maxDevices, events).paired[id].Live? {
      CacheShowsLatest(maxDevices, events, id);
      NothingMissed(maxDevices, events, id);
    } else {
      StaleShows(maxDevices, events, id);
    }
  }

  lemma NothingMissed(maxDevices: int, events: seq<Event>, id: string)
    requires !StaleIn(Run(maxDevices, events), id)
    ensures !Missed(maxDevices, events, id)
  {
    assert events[..|events|] == events;
  }

  /** A device paired, removed and seen again: the paired view goes on showing it as it was. */
  function SeenAgain(a: Info, b: Info): seq<Event> {
    [Seen(a, 1, None), PairedWith(a.id), Removed(a.id), Seen(b, 2, None)]
  }

  lemma SeenAgainShowsOld(maxDevices: int, a: Info, b: Info)
    requires a.id == b.id
    ensures var events := SeenAgain(a, b);
            && AllPossible(maxDevices, events) && Clocked(events)
            && a.id in Run(maxDevices, events).paired && StaleIn(Run(maxDevices, events), a.id)
            && PairedInfo(Run(maxDevices, events), a.id) == a.(lastSeen := 1)
            && Latest(events, a.id) == Some(b.(lastSeen := 2))
  {
    var e0, e1, e2, e3 := Seen(a, 1, None), PairedWith(a.id), Removed(a.id), Seen(b, 2, None);
    var was, news := a.(lastSeen := 1), b.(lastSeen := 2);
    SeenAgainSteps(maxDevices, a, b);
    hide AllPossible, Run, Step, Possible, Latest;
    NothingRun(maxDevices, a.id);
    assert [] + [e0] == [e0] && [e0] + [e1] == [e0, e1] && [e0, e1] + [e2] == [e0, e1, e2];
    assert [e0, e1, e2] + [e3] == SeenAgain(a, b);
    Extended(maxDevices, [], e0, a.id, Cache(map[a.id := was], {}, map[]));
    Extended(maxDevices, [e0], e1, a.id, Cache(map[a.id := was], {}, map[a.id := Live]));
    Extended(maxDevices, [e0, e1], e2, a.id, Cache(map[], {}, map[a.id := Stale(was)]));
    Extended(maxDevices, [e0, e1, e2], e3, a.id, Cache(map[a.id := news], {}, map[a.id := Stale(was)]));
  }

  lemma NothingRun(maxDevices: int, id: string)
    ensures Run(maxDevices, []) == Cache(map[], {}, map[]) && AllPossible(maxDevices, []) && Latest([], id) == None
  {
  }

  lemma SeenAgainSteps(maxDevices: int, a: Info, b: Info)
    requires a.id == b.id
    ensures
      var was, news := a.(lastSeen := 1), b.(lastSeen := 2);
      var c0, c1 := Cache(map[], {}, map[]), Cache(map[a.id := was], {}, map[]);
      var c2, c3 := c1.(paired := map[a.id := Live]), c0.(paired := map[a.id := Stale(was)]);
      && Possible(c0, maxDevices, Seen(a, 1, None)) && Step(c0, maxDevices, Seen(a, 1, None)) == c1
      && Possible(c1, maxDevices, PairedWith(a.id)) && Step(c1, maxDevices, PairedWith(a.id)) == c2
      && Possible(c2, maxDevices, Removed(a.id)) && Step(c2, maxDevices, Removed(a.id)) == c3
      && Possible(c3, maxDevices, Seen(b, 2, None))
      && Step(c3, maxDevices, Seen(b, 2, None)) == c3.(devices := map[a.id := news])
  {
  }

  lemma Extended(maxDevices: int, events: seq<Event>, e: Event, id: string, after: Cache)
    requires AllPossible(maxDevices, events) && Possible(Run(maxDevices, events), maxDevices, e)
    requires Step(Run(maxDevices, events), maxDevices, e) == after
    ensures AllPossible(maxDevices, events + [e]) && Run(maxDevices, events + [e]) == after
    ensures e.Seen? && e.info.id == id ==> Latest(events + [e], id) == Some(e.info.(lastSeen := e.at))
    ensures !IsNews(e, id) ==> Latest(events + [e], id) == Latest(events, id)
  {
    hide Step, Possible;
    var all := events + [e];
    assert all[..|all| - 1] == events;
    assert forall i :: 0 <= i <= |events| ==> all[..i] == events[..i];
    assert events[..|events|] == events;
  }

  // ---- what protects a device ----

  /** A device is safe from eviction and clearing while it is connected or paired. From the periodic cleanup a
      connection protects it fully, and pairing triples its time. */
  lemma ProtectionIs(c: Cache, timeout: int, now: int, id: string)
    ensures id in Unprotected(c) <==> id in c.devices && id !in c.connected && id !in c.paired
    ensures id in Expired(c, timeout, now)
            <==> && id in c.devices && id !in c.connected
                 && (id in c.paired ==> now - c.devices[id].lastSeen > 3 * timeout)
                 && (id !in c.paired ==> now - c.devices[id].lastSeen > timeout)
  {
  }

  /** Devices that leave the cache leave the connected table with it, never the paired one. */
  lemma DroppedFrom(c: Cache, ids: set<string>)
    ensures
      var d := Drop(c, ids);
      && d.devices == c.devices - ids && d.connected == c.connected - ids && d.paired.Keys == c.paired.Keys
      && forall id :: id in c.paired ==>
           d.paired[id] == if c.paired[id] == Live && id in c.devices && id in ids then Stale(c.devices[id])
                           else c.paired[id]
  {
  }

  // ---- eviction ----

  lemma UnprotectedEvictable(c: Cache, now: int)
    requires forall id :: id in c.devices ==> c.devices[id].lastSeen < now
    ensures forall id :: id in Unprotected(c) <==> Evictable(c, now, id)
  {
  }

  lemma DropUnprotected(c: Cache, id: string)
    requires Lawful(c) && id in Unprotected(c)
    ensures var d := Drop(c, {id});
            && d.connected == c.connected && d.paired == c.paired
            && d.devices == c.devices - {id} && |d.devices| == |c.devices| - 1
  {
    RemovedSize(c.devices, id);
  }

  /** A full cache takes a new device at the cost of the least recently seen unprotected one, and of nothing else; it
      grows exactly when there is no unprotected device to take, or that device has the empty ID. */
  lemma EvictionIsLeastRecentlySeen(c: Cache, maxDevices: int, info: Info, now: int, oldest: Option<string>)
    requires Lawful(c) && info.id !in c.devices && |c.devices| >= maxDevices
    requires forall id :: id in c.devices ==> c.devices[id].lastSeen < now
    requires IsOldest(c, now, oldest)
    ensures
      var after := Added(c, maxDevices, info, now, oldest);
      && after.connected == c.connected && after.paired == c.paired
      && |after.devices| == (if Unprotected(c) == {} || oldest == Some("") then |c.devices| + 1 else |c.devices|)
      && (|after.devices| == |c.devices| ==>
            && oldest.Some? && oldest.value in Unprotected(c)
            && after.devices == (c.devices - {oldest.value})[info.id := info.(lastSeen := now)]
            && forall id :: id in Unprotected(c) ==> c.devices[oldest.value].lastSeen <= c.devices[id].lastSeen)
  {
    UnprotectedEvictable(c, now);
    if oldest.Some? && oldest.value != "" {
      DropUnprotected(c, oldest.value);
    }
    hide Drop, Unprotected, Evictable;
    var d := Evicted(c, oldest);
    AddedSize(d.devices, info.id, info.(lastSeen := now));
  }

  // ---- the device of the empty ID ----

  /** No two devices were last seen at the same time. */
  predicate DistinctTimes(c: Cache) {
    forall x, y :: x in c.devices && y in c.devices && x != y ==> c.devices[x].lastSeen != c.devices[y].lastSeen
  }

  /** With a strictly increasing clock no two devices are ever seen at the same time. */
  lemma {:induction false} TimesStayDistinct(maxDevices: int, events: seq<Event>)
    requires Clocked(events)
    ensures DistinctTimes(Run(maxDevices, events))
  {
    if events != [] {
      var n := |events| - 1;
      ClockedPrefix(events, n);
      TimesStayDistinct(maxDevices, events[..n]);
      if Timed(events[n]) {
        LastSeenEarlier(maxDevices, events[..n], At(events[n]));
      }
      var c, after := Run(maxDevices, events[..n]), Run(maxDevices, events);
      forall x, y | x in after.devices && y in after.devices && x != y
        ensures after.devices[x].lastSeen != after.devices[y].lastSeen
      {
        StepShows(c, maxDevices, events[n], x);
        StepShows(c, maxDevices, events[n], y);
      }
    }
  }

  /** The device of the empty ID is unprotected and was seen before every other unprotected one. */
  predicate EmptyIDIsOldest(c: Cache) {
    "" in Unprotected(c)
    && forall id :: id in Unprotected(c) && id != "" ==> c.devices[""].lastSeen < c.devices[id].lastSeen
  }

  /** A full cache grows, without evicting anything, exactly when it holds no unprotected device, or the least recently
      seen one is that of the empty ID. */
  lemma FullCacheGrowsIff(c: Cache, maxDevices: int, info: Info, now: int, oldest: Option<string>)
    requires Lawful(c) && DistinctTimes(c) && info.id !in c.devices && |c.devices| >= maxDevices
    requires forall id :: id in c.devices ==> c.devices[id].lastSeen < now
    requires IsOldest(c, now, oldest)
    ensures |Added(c, maxDevices, info, now, oldest).devices| > |c.devices|
            <==> Unprotected(c) == {} || EmptyIDIsOldest(c)
  {
    EvictionIsLeastRecentlySeen(c, maxDevices, info, now, oldest);
    UnprotectedEvictable(c, now);
    hide Added, Unprotected, Evictable, Lawful;
    if oldest == Some("") {
      assert forall id :: id in Unprotected(c) && id != "" ==> c.devices[""].lastSeen < c.devices[id].lastSeen by {
        UnprotectedCached(c);
      }
    }
  }

  lemma UnprotectedCached(c: Cache)
    ensures Unprotected(c) <= c.devices.Keys
  {
  }

  /** The event takes devices out of the cache for another reason than room. */
  predicate TakesOut(e: Event) {
    e.Removed? || e.Sweep? || e.Clear? || e.Stopped?
  }

  /** A sighting never evicts the device of the empty ID. */
  lemma EmptyIDStays(c: Cache, maxDevices: int, e: Event)
    requires "" in c.devices && !TakesOut(e)
    ensures "" in Step(c, maxDevices, e).devices
  {
  }

  /** Over any run of sightings, connections and pairings it stays, however full the cache. */
  lemma {:induction false} EmptyIDOutlivesAll(maxDevices: int, events: seq<Event>, n: nat)
    requires n <= |events| && "" in Run(maxDevices, events[..n]).devices
    requires forall i :: n <= i < |events| ==> !TakesOut(events[i])
    ensures "" in Run(maxDevices, events).devices
    decreases |events|
  {
    hide Step, TakesOut;
    if n == |events| {
      assert events[..n] == events;
    } else {
      var last := |events| - 1;
      assert events[..last][..n] == events[..n];
      EmptyIDOutlivesAll(maxDevices, events[..last], n);
      EmptyIDStays(Run(maxDevices, events[..last]), maxDevices, events[last]);
    }
  }

  /** A cache for one device that first sees the empty ID takes a second device beside it. */
  lemma EmptyIDMakesCacheGrow(a: Info, b: Info)
    requires a.id == "" && b.id != ""
    ensures var events := [Seen(a, 1, None), Seen(b, 2, Some(""))];
            && AllPossible(1, events) && Clocked(events)
            && Run(1, events) == Cache(map["" := a.(lastSeen := 1), b.id := b.(lastSeen := 2)], {}, map[])
            && |Run(1, events).devices| == 2
  {
    var e0, e1 := Seen(a, 1, None), Seen(b, 2, Some(""));
    var c0, c1 := Cache(map[], {}, map[]), Cache(map["" := a.(lastSeen := 1)], {}, map[]);
    NothingRun(1, "");
    assert Possible(c0, 1, e0) && Step(c0, 1, e0) == c1;
    Extended(1, [], e0, "", c1);
    assert Possible(c1, 1, e1) && Step(c1, 1, e1) == c1.(devices := c1.devices[b.id := b.(lastSeen := 2)]);
    Extended(1, [e0], e1, "", c1.(devices := c1.devices[b.id := b.(lastSeen := 2)]));
    assert [] + [e0] == [e0] && [e0] + [e1] == [e0, e1];
    AddedSize(c1.devices, b.id, b.(lastSeen := 2));
  }

  // ---- the size of the cache ----

  ghost predicate NonEmptyIDs(events: seq<Event>) {
    forall i :: 0 <= i < |events| && events[i].Seen? ==> events[i].info.id != ""
  }

  lemma {:induction false} EmptyIDNotCached(maxDevices: int, events: seq<Event>)
    requires NonEmptyIDs(events)
    ensures "" !in Run(maxDevices, events).devices
  {
    if events != [] && "" in Run(maxDevices, events).devices {
      var n := |events| - 1;
      EmptyIDNotCached(maxDevices, events[..n]);
      StepShows(Run(maxDevices, events[..n]), maxDevices, events[n], "");
    }
  }

  function ProtectedDevices(c: Cache): set<string> {
    set id | id in c.devices && Protected(c, id)
  }

  lemma StepSize(c: Cache, maxDevices: int, e: Event)
    requires !e.Seen? || e.info.id in c.devices
    ensures |Step(c, maxDevices, e).devices| <= |c.devices|
  {
    hide Expired, Unprotected;
    var after := Step(c, maxDevices, e);
    SubsetSize(after.devices.Keys, c.devices.Keys);
    KeysSize(after.devices);
    KeysSize(c.devices);
  }

  lemma NewcomerSize(c: Cache, maxDevices: int, e: Event, most: nat)
    requires Lawful(c) && Possible(c, maxDevices, e)
    requires e.Seen? && e.info.id !in c.devices && "" !in c.devices
    requires forall id :: id in c.devices ==> c.devices[id].lastSeen < e.at
    requires |ProtectedDevices(c)| <= most
    ensures |Step(c, maxDevices, e).devices| <= |c.devices| || |Step(c, maxDevices, e).devices| <= maxDevices
            || |Step(c, maxDevices, e).devices| <= most + 1
  {
    if |c.devices| < maxDevices {
      AddedSize(c.devices, e.info.id, e.info.(lastSeen := e.at));
    } else {
      hide IsOldest;
      EvictionIsLeastRecentlySeen(c, maxDevices, e.info, e.at, e.oldest);
      if Unprotected(c) == {} {
        assert ProtectedDevices(c) == c.devices.Keys by { AllProtected(c); }
        KeysSize(c.devices);
      }
      if e.oldest == Some("") {
        OldestIsCached(c, e.at, e.oldest);
      }
    }
  }

  lemma AllProtected(c: Cache)
    requires Unprotected(c) == {}
    ensures ProtectedDevices(c) == c.devices.Keys
  {
    assert forall id :: id in c.devices ==> id !in Unprotected(c);
  }

  lemma OldestIsCached(c: Cache, now: int, oldest: Option<string>)
    requires IsOldest(c, now, oldest) && oldest.Some?
    ensures oldest.value in c.devices
  {
  }

  /** No state of the run holds more than `most` protected devices. */
  ghost predicate AtMostProtected(maxDevices: int, events: seq<Event>, most: nat) {
    forall i :: 0 <= i <= |events| ==> |ProtectedDevices(Run(maxDevices, events[..i]))| <= most
  }

  lemma PrefixKeeps(maxDevices: int, events: seq<Event>, most: nat, n: nat)
    requires Clocked(events) && NonEmptyIDs(events) && AtMostProtected(maxDevices, events, most) && n < |events|
    ensures Clocked(events[..n]) && NonEmptyIDs(events[..n]) && AtMostProtected(maxDevices, events[..n], most)
    ensures |ProtectedDevices(Run(maxDevices, events[..n]))| <= most
    ensures Timed(events[n]) ==> forall i :: 0 <= i < n && Timed(events[..n][i]) ==> At(events[..n][i]) < At(events[n])
  {
    hide Run, ProtectedDevices;
    assert forall i :: 0 <= i <= n ==> events[..n][..i] == events[..i];
  }

  /** With a strictly increasing clock and non-empty IDs the cache never outgrows its capacity, or one more than the
      most protected devices it ever held. */
  lemma {:induction false} SizeBounded(maxDevices: int, events: seq<Event>, most: nat)
    requires AllPossible(maxDevices, events) && Clocked(events) && NonEmptyIDs(events)
    requires AtMostProtected(maxDevices, events, most)
    ensures |Run(maxDevices, events).devices| <= if maxDevices > most then maxDevices else most + 1
  {
    hide Step, Possible, ProtectedDevices, Clocked, NonEmptyIDs, AtMostProtected;
    if events != [] {
      var n := |events| - 1;
      var before, e := events[..n], events[n];
      PossiblePrefix(maxDevices, events, n);
      PrefixKeeps(maxDevices, events, most, n);
      SizeBounded(maxDevices, before, most);
      var c := Run(maxDevices, before);
      if e.Seen? && e.info.id !in c.devices {
        RunKeepsLawful(maxDevices, before);
        EmptyIDNotCached(maxDevices, before);
        LastSeenEarlier(maxDevices, before, e.at);
        NewcomerSize(c, maxDevices, e, most);
      } else {
        StepSize(c, maxDevices, e);
      }
    }
  }
}
