/**
 * The live-connection registry behind the event stream: user -> (device
 * fingerprint -> writer).  Writers are named by `WriterId`s; whether a write
 * succeeds is an input (`writeOk`), and so is whether a writer's `closed`
 * promise rejects (`closedRejects`: the stream has errored) rather than
 * staying pending or fulfilling.  The registry also records every frame it
 * writes and every writer it closes, so that the effect of each operation on
 * the outside world is part of its contract.  Frames follow the event-stream
 * format of Server-Sent Events (WHATWG HTML Living Standard, section 9.2).
 */
module Stream {
  import opened Common
  import opened Store
  import opened Text
  import Table
  import Json

  type WriterId = nat
  type Devices = map<string, WriterId>
  type Clients = map<string, Devices>

  /** `event: <name>\ndata: <data>\n\n` */
  function EventFrame(event: string, data: string): string
  {
    "event: " + event + "\ndata: " + data + "\n\n"
  }

  /** The frame `sendSSEvent` writes: the data is `JSON.stringify(data)`. */
  function JsonFrame(event: string, data: Json.Json): string
  {
    EventFrame(event, Json.Stringify(data))
  }

  const CONNECTED_FRAME: string := EventFrame("connected", "SSE connection established")

  // ------------------------------------------------- the registry, as values

  /** What connecting registers: the device's entry now holds `w`. */
  function Registered(c: Clients, user: string, fp: string, w: WriterId): (r: Clients)
    ensures user in r && fp in r[user] && r[user][fp] == w
    ensures r.Keys == c.Keys + {user}
    ensures r[user].Keys == (if user in c then c[user].Keys else {}) + {fp}
    ensures forall u :: u in c && u != user ==> r[u] == c[u]
    ensures forall d :: d in r[user] && d != fp ==> user in c && d in c[user] && r[user][d] == c[user][d]
  {
    c[user := (if user in c then c[user] else map[])[fp := w]]
  }

  /** The writers closed when the handlers look at a writer's `closed`
      promise: `close()` is called only from its rejection handler. */
  function ClosedIfRejected(w: WriterId, closedRejects: WriterId -> bool): (r: set<WriterId>)
    ensures w in r <==> closedRejects(w)
    ensures r <= {w}
  {
    if closedRejects(w) then {w} else {}
  }

  /** What `cleanup` leaves: the device's entry is gone, and so is the user's
      entry once it holds no device. */
  function Removed(c: Clients, user: string, fp: string): (r: Clients)
    ensures user in r ==> fp !in r[user] && r[user] != map[]
    ensures forall u :: u != user ==> (u in r <==> u in c) && (u in c ==> r[u] == c[u])
    ensures user in r ==> user in c && r[user] == c[user] - {fp}
    ensures user !in r ==> user !in c || c[user] - {fp} == map[]
  {
    if user !in c then c
    else
      var m := c[user] - {fp};
      if m == map[] then c - {user} else c[user := m]
  }

  /** The devices a broadcast leaves: those whose write succeeded. */
  function Evicted(devices: Devices, writeOk: WriterId -> bool): (r: Devices)
    ensures r.Keys <= devices.Keys
    ensures forall fp :: fp in devices ==> (fp in r <==> writeOk(devices[fp]))
    ensures forall fp :: fp in r ==> r[fp] == devices[fp]
  {
    map fp | fp in devices && writeOk(devices[fp]) :: devices[fp]
  }

  /** The writers a broadcast closes: those whose write failed. */
  function FailedWriters(devices: Devices, writeOk: WriterId -> bool): set<WriterId>
  {
    set fp | fp in devices && !writeOk(devices[fp]) :: devices[fp]
  }

  /** `order` lists every key of `keys` exactly once. */
  predicate Enumerates(order: seq<string>, keys: set<string>)
  {
    && (forall i :: 0 <= i < |order| ==> order[i] in keys)
    && (forall f :: f in keys ==> f in order)
    && (forall i, j :: 0 <= i < j < |order| ==> order[i] != order[j])
  }

  /** The frames written when the devices are visited in `order`: one per
      device, to that device's writer. */
  function Deliveries(devices: Devices, order: seq<string>, frame: string): (r: seq<(WriterId, string)>)
    requires forall i :: 0 <= i < |order| ==> order[i] in devices
    ensures |r| == |order|
  {
    seq(|order|, i requires 0 <= i < |order| => (devices[order[i]], frame))
  }

  lemma RepeatCounts(s: seq<string>, i: nat, j: nat)
    requires i < j < |s|
    ensures s[i] == s[j] ==> multiset(s)[s[i]] >= 2
  {
    assert s == s[..i] + [s[i]] + s[i + 1..j] + [s[j]] + s[j + 1..];
  }

  /** Visiting one more key keeps the visit order a listing of the keys visited. */
  lemma MultisetSnoc(order: seq<string>, done: set<string>, fp: string)
    requires multiset(order) == multiset(done) && fp !in done
    ensures multiset(order + [fp]) == multiset(done + {fp})
  {
    assert multiset(done + {fp}) == multiset(done) + multiset{fp};
  }

  /** A sequence with the same elements and multiplicities as a set lists
      that set once over. */
  lemma {:induction false} EnumeratesFromMultiset(order: seq<string>, keys: set<string>)
    requires multiset(order) == multiset(keys)
    ensures Enumerates(order, keys)
  {
    forall i | 0 <= i < |order| ensures order[i] in keys {
      assert order[i] in multiset(order);
    }
    forall f | f in keys ensures f in order {
      assert f in multiset(keys);
    }
    forall i, j | 0 <= i < j < |order| ensures order[i] != order[j] {
      RepeatCounts(order, i, j);
      assert multiset(keys)[order[i]] <= 1;
    }
  }

  lemma DeliveriesSnoc(devices: Devices, order: seq<string>, fp: string, frame: string)
    requires forall i :: 0 <= i < |order| ==> order[i] in devices
    requires fp in devices
    ensures Deliveries(devices, order + [fp], frame) == Deliveries(devices, order, frame) + [(devices[fp], frame)]
  {
  }

  /** Visiting one more device keeps the bookkeeping of `WriteAll`: the
      visit order and the devices still to visit together hold every device
      once. */
  lemma VisitStep(devices: Devices, order: seq<string>, remaining: set<string>, fp: string)
    requires remaining <= devices.Keys
    requires forall i :: 0 <= i < |order| ==> order[i] in devices
    requires multiset(order) + multiset(remaining) == multiset(devices.Keys)
    requires fp in remaining
    ensures fp in devices
    ensures remaining - {fp} <= devices.Keys && |remaining - {fp}| < |remaining|
    ensures forall i :: 0 <= i < |order + [fp]| ==> (order + [fp])[i] in devices
    ensures multiset(order + [fp]) + multiset(remaining - {fp}) == multiset(devices.Keys)
  {
    assert multiset(remaining) == multiset(remaining - {fp}) + multiset{fp};
  }

  /** What one broadcast of `frame` to `user` does to the registry state
      (clients, frames written, writers closed): nothing when the user has no
      entry; otherwise, with the devices visited in `order`, one frame per
      device, the devices whose write failed evicted and their writers closed. */
  predicate Sent(c0: Clients, w0: seq<(WriterId, string)>, k0: set<WriterId>,
                 c1: Clients, w1: seq<(WriterId, string)>, k1: set<WriterId>,
                 user: string, frame: string, writeOk: WriterId -> bool, order: seq<string>)
  {
    if user !in c0 then c1 == c0 && w1 == w0 && k1 == k0
    else
      var devices := c0[user];
      && Enumerates(order, devices.Keys)
      && w1 == w0 + Deliveries(devices, order, frame)
      && c1 == c0[user := Evicted(devices, writeOk)]
      && k1 == k0 + FailedWriters(devices, writeOk)
  }

  class Registry {
    var clients: Clients
    /** Every frame written, with the writer it went to, in order. */
    var written: seq<(WriterId, string)>
    /** Every writer on which `close()` was called. */
    var closed: set<WriterId>

    constructor ()
      ensures clients == map[] && written == [] && closed == {}
    {
      clients, written, closed := map[], [], {};
    }

    /** `sendSSEvent`: one frame, `JSON.stringify(data)` under the event's
        name, to every device of the user; a device whose write fails loses its
        entry and its writer is closed, but the user's entry stays even when it
        becomes empty. */
    method SendSSEvent(userEmail: string, event: string, data: Json.Json, writeOk: WriterId -> bool)
      returns (ghost order: seq<string>)
      modifies this
      ensures Sent(old(clients), old(written), old(closed), clients, written, closed,
                   userEmail, JsonFrame(event, data), writeOk, order)
    {
      order := [];
      if userEmail in clients {
        var devices := clients[userEmail];
        order := WriteAll(devices, JsonFrame(event, data));
        // The rejections of the writes are handled once the writes settle,
        // after every device has been written to.
        clients := clients[userEmail := Evicted(devices, writeOk)];
        closed := closed + FailedWriters(devices, writeOk);
      }
    }

    /** The `forEach` of `sendSSEvent`: `frame` goes once to every device. */
    method WriteAll(devices: Devices, frame: string) returns (ghost order: seq<string>)
      modifies this`written
      ensures Enumerates(order, devices.Keys)
      ensures written == old(written) + Deliveries(devices, order, frame)
    {
      order := [];
      var remaining := devices.Keys;
      ghost var start := written;
      while remaining != {}
        invariant remaining <= devices.Keys
        invariant forall i :: 0 <= i < |order| ==> order[i] in devices
        invariant multiset(order) + multiset(remaining) == multiset(devices.Keys)
        invariant written == start + Deliveries(devices, order, frame)
        decreases |remaining|
      {
        var fp :| fp in remaining;
        VisitStep(devices, order, remaining, fp);
        DeliveriesSnoc(devices, order, fp, frame);
        written := written + [(devices[fp], frame)];
        remaining := remaining - {fp};
        order := order + [fp];
      }
      EnumeratesFromMultiset(order, devices.Keys);
    }

    /** Connecting a device (stream.ts lines 64-85): any writer already held
        for that device is replaced, but closed only when its `closed` promise
        rejects; a superseded writer that is still open stays open.  Then
        `connected` is written to the new writer. */
    method Register(userEmail: string, fp: string, writer: WriterId, closedRejects: WriterId -> bool)
      modifies this
      ensures clients == Registered(old(clients), userEmail, fp, writer)
      ensures closed == old(closed) +
        (if userEmail in old(clients) && fp in old(clients)[userEmail]
         then ClosedIfRejected(old(clients)[userEmail][fp], closedRejects) else {})
      ensures written == old(written) + [(writer, CONNECTED_FRAME)]
    {
      if userEmail !in clients {
        clients := clients[userEmail := map[]];
      }
      if fp in clients[userEmail] {
        var existingWriter := clients[userEmail][fp];
        if closedRejects(existingWriter) {
          closed := closed + {existingWriter};
        }
      }
      var devices: Devices := clients[userEmail][fp := writer];
      clients := clients[userEmail := devices];
      written := written + [(writer, CONNECTED_FRAME)];
    }

    /** `cleanup`, the one exit path for an abort, a failed heartbeat or a
        closed writer: it forgets the device and closes the connection's own
        writer when that writer's `closed` promise rejects. */
    method Cleanup(userEmail: string, fp: string, writer: WriterId, closedRejects: WriterId -> bool)
      modifies this
      ensures clients == Removed(old(clients), userEmail, fp)
      ensures closed == old(closed) + ClosedIfRejected(writer, closedRejects)
      ensures written == old(written)
    {
      if userEmail in clients {
        var userClients := clients[userEmail] - {fp};
        clients := clients[userEmail := userClients];
        if userClients == map[] {
          clients := clients - {userEmail};
        }
      }
      if closedRejects(writer) {
        closed := closed + {writer};
      }
    }
  }

  /** The body of a successful `GET`: the readable side of the new stream. */
  datatype Opened = Opened(writer: WriterId)

  /** The `GET` handler: authenticate, check that the fingerprint is one of
      the user's subscribed devices, then register the new writer. */
  method Get(db: Database, registry: Registry, sessionEmail: Option<string>, fingerprint: Option<string>,
             writer: WriterId, closedRejects: WriterId -> bool) returns (reply: Reply<Opened>)
    modifies registry
    ensures !Truthy(sessionEmail) ==>
      reply == Fail(401, UNAUTHORIZED) && unchanged(registry)
    ensures Truthy(sessionEmail) && !Truthy(fingerprint) ==>
      reply == Fail(400, "Missing device fingerprint") && unchanged(registry)
    ensures Truthy(sessionEmail) && Truthy(fingerprint) ==>
      var sub := Table.First(db.subscriptions, (s: Subscription) => s.deviceFingerprint == fingerprint.value);
      if sub.None? || sub.value.userEmail != sessionEmail.value then
        reply == Fail(400, "Invalid device fingerprint") && unchanged(registry)
      else
        && reply == Reply(200, Payload(Opened(writer)))
        && registry.clients == Registered(old(registry.clients), sessionEmail.value, fingerprint.value, writer)
        && registry.written == old(registry.written) + [(writer, CONNECTED_FRAME)]
        && registry.closed == old(registry.closed) +
             (if sessionEmail.value in old(registry.clients) && fingerprint.value in old(registry.clients)[sessionEmail.value]
              then ClosedIfRejected(old(registry.clients)[sessionEmail.value][fingerprint.value], closedRejects)
              else {})
  {
    if !Truthy(sessionEmail) {
      return Fail(401, UNAUTHORIZED);
    }
    var userEmail := sessionEmail.value;
    if !Truthy(fingerprint) {
      return Fail(400, "Missing device fingerprint");
    }
    var deviceFingerprint := fingerprint.value;
    var subscription := Table.First(db.subscriptions, (s: Subscription) => s.deviceFingerprint == deviceFingerprint);
    if subscription.None? || subscription.value.userEmail != userEmail {
      return Fail(400, "Invalid device fingerprint");
    }
    registry.Register(userEmail, deviceFingerprint, writer, closedRejects);
    reply := Reply(200, Payload(Opened(writer)));
  }

  // ------------------------------------------------------------ properties

  /** Cleaning up twice is cleaning up once. */
  lemma CleanupIdempotent(c: Clients, user: string, fp: string)
    ensures Removed(Removed(c, user, fp), user, fp) == Removed(c, user, fp)
  {
    var r := Removed(c, user, fp);
    if user in r {
      assert r[user] - {fp} == r[user];
    }
  }

  /** Cleaning up a device that has no entry changes nothing, as long as the
      user still has another device. */
  lemma CleanupAbsentDevice(c: Clients, user: string, fp: string)
    requires user !in c || (fp !in c[user] && c[user] != map[])
    ensures Removed(c, user, fp) == c
  {
    if user in c {
      assert c[user] - {fp} == c[user];
      assert c[user := c[user]] == c;
    }
  }

  /** Reconnecting leaves exactly one entry for the device, holding the new
      writer, however many times it reconnected before. */
  lemma ReconnectSupersedes(c: Clients, user: string, fp: string, w1: WriterId, w2: WriterId)
    ensures Registered(Registered(c, user, fp, w1), user, fp, w2) == Registered(c, user, fp, w2)
  {
    var base: Devices := if user in c then c[user] else map[];
    assert base[fp := w1][fp := w2] == base[fp := w2];
  }

  /** The cleanup of a superseded connection runs with the same fingerprint,
      so it removes the entry of the connection that replaced it. */
  lemma StaleCleanupRemovesNewerWriter(c: Clients, user: string, fp: string, wOld: WriterId, wNew: WriterId)
    ensures var r := Removed(Registered(Registered(c, user, fp, wOld), user, fp, wNew), user, fp);
            user !in r || fp !in r[user]
  {
  }

  /** A reconnect from the same device while the old stream is still open
      (its `closed` promise neither fulfils nor rejects) drops the old writer
      from the registry without closing it: no entry holds it any more and it
      is not among the writers closed. */
  lemma SupersededOpenWriterIsOrphaned(c: Clients, user: string, fp: string, wNew: WriterId,
                                       closedRejects: WriterId -> bool)
    requires user in c && fp in c[user]
    requires forall u, d :: u in c && d in c[u] && c[u][d] == c[user][fp] ==> u == user && d == fp
    requires c[user][fp] != wNew && !closedRejects(c[user][fp])
    ensures var r := Registered(c, user, fp, wNew);
      forall u, d :: u in r && d in r[u] ==> r[u][d] != c[user][fp]
    ensures c[user][fp] !in ClosedIfRejected(c[user][fp], closedRejects)
  {
  }

  /** A frame is read back by an event-stream parser as exactly two fields and
      the blank line that dispatches the event, provided neither the name nor
      the data holds a line break. */
  lemma FrameLines(event: string, data: string)
    requires '\n' !in event && '\n' !in data
    ensures Split(EventFrame(event, data), '\n') == ["event: " + event, "data: " + data, "", ""]
  {
    var l1, l2 := "event: " + event, "data: " + data;
    var lines := [l1, l2, "", ""];
    assert Join(lines[3..], "\n") == "";
    assert Join(lines[2..], "\n") == "\n";
    assert Join(lines[1..], "\n") == l2 + "\n\n";
    assert EventFrame(event, data) == Join(lines, "\n");
    SplitJoin(lines, '\n');
  }

  /** `JSON.stringify` never breaks a line, so every event `sendSSEvent`
      writes is one `event:` line, one `data:` line and a blank line. */
  lemma JsonFrameLines(event: string, data: Json.Json)
    requires '\n' !in event
    ensures Split(JsonFrame(event, data), '\n') == ["event: " + event, "data: " + Json.Stringify(data), "", ""]
  {
    Json.StringifyNoNewline(data);
    FrameLines(event, Json.Stringify(data));
  }
}
