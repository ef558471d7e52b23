/** The plain WebSocket relay of backend-node/src/index.js: a `peers` Map from
    socket id to peer entry, kept in insertion order (the order `broadcast`
    visits), messages `join`, `signal` and `chat`, and the `close` event.
    Every `socket.send` is appended to `outbox`. */
module P2PRelay {
  import opened Collections

  type SocketId = string

  /** The opaque JSON payload of a `signal`. */
  type Payload = string

  /** A `peers` entry: its socket id and the name set by `join` (`None`
      before any join). */
  datatype PeerEntry = PeerEntry(id: SocketId, name: Option<string>)

  /** What the relay sends to a client. */
  datatype RelayMessage =
    | UserJoined(id: SocketId, name: string)
    | Signal(from: SocketId, signal: Payload)
    | Chat(from: SocketId, message: string)
    | UserLeft(id: SocketId)

  /** A client message other than `file`: one of the three handled types,
      an object of any other type, or text that `JSON.parse` rejects or that
      parses to `null`, so that reading its type throws. */
  datatype ClientMessage =
    | JoinRequest(name: string)
    | SignalRequest(to: SocketId, signal: Payload)
    | ChatRequest(message: string)
    | Unknown
    | Malformed

  datatype Delivery = Delivery(to: SocketId, message: RelayMessage)

  function EntryId(e: PeerEntry): SocketId { e.id }
  function DeliveryTarget(d: Delivery): SocketId { d.to }

  /** The ids of the map, in insertion order. */
  function Ids(entries: seq<PeerEntry>): (ids: seq<SocketId>)
    ensures |ids| == |entries|
    ensures forall i :: 0 <= i < |entries| ==> ids[i] == entries[i].id
  {
    seq(|entries|, i requires 0 <= i < |entries| => entries[i].id)
  }

  /** `Map.prototype.set` on an ordered map: an existing key keeps its
      position and gets the new value; a new key goes last. */
  function SetEntry(entries: seq<PeerEntry>, e: PeerEntry): (r: seq<PeerEntry>)
    ensures e in r
    ensures e.id in Ids(entries) ==> |r| == |entries|
                                     && forall i :: 0 <= i < |entries| ==> r[i] == if entries[i].id == e.id then e else entries[i]
    ensures e.id !in Ids(entries) ==> r == entries + [e]
  {
    if e.id in Ids(entries) then
      SetEntryAt(entries, e)
    else
      entries + [e]
  }

  /** The sequence with every entry of `e.id` replaced by `e`. */
  function SetEntryAt(entries: seq<PeerEntry>, e: PeerEntry): (r: seq<PeerEntry>)
    requires e.id in Ids(entries)
    ensures e in r
    ensures |r| == |entries|
    ensures forall i :: 0 <= i < |entries| ==> r[i] == if entries[i].id == e.id then e else entries[i]
  {
    var r := seq(|entries|, i requires 0 <= i < |entries| => if entries[i].id == e.id then e else entries[i]);
    var j :| 0 <= j < |entries| && Ids(entries)[j] == e.id;
    assert r[j] == e;
    r
  }

  /** One `socket.send` of `message` to every registered peer, in map order. */
  function BroadcastTo(entries: seq<PeerEntry>, message: RelayMessage): (ds: seq<Delivery>)
    ensures |ds| == |entries|
    ensures forall i :: 0 <= i < |entries| ==> ds[i] == Delivery(entries[i].id, message)
  {
    seq(|entries|, i requires 0 <= i < |entries| => Delivery(entries[i].id, message))
  }

  lemma BroadcastToSnoc(entries: seq<PeerEntry>, e: PeerEntry, message: RelayMessage)
    ensures BroadcastTo(entries + [e], message) == BroadcastTo(entries, message) + [Delivery(e.id, message)]
  {
  }

  /** A broadcast reaches every registered peer exactly once and no one
      else, the ids of the map being distinct. */
  lemma {:induction false} BroadcastReachesEachOnce(entries: seq<PeerEntry>, message: RelayMessage, t: SocketId)
    requires NoDuplicates(Ids(entries))
    ensures |Select(BroadcastTo(entries, message), DeliveryTarget, t)| == if t in Ids(entries) then 1 else 0
    decreases |entries|
  {
    if entries != [] {
      var init, last := entries[..|entries| - 1], entries[|entries| - 1];
      assert entries == init + [last];
      assert Ids(init) == Ids(entries)[..|init|];
      BroadcastReachesEachOnce(init, message, t);
      BroadcastToSnoc(init, last, message);
      var ds := BroadcastTo(entries, message);
      assert ds[..|ds| - 1] == BroadcastTo(init, message);
      assert Ids(entries) == Ids(init) + [last.id];
    }
  }

  /** The map after `peers.delete(id)`. */
  function Without(entries: seq<PeerEntry>, id: SocketId): (r: seq<PeerEntry>)
    ensures IsSubsequence(r, entries)
    ensures forall e :: e in r <==> e in entries && e.id != id
  {
    ExcludeIsSubsequence(entries, EntryId, id);
    ExcludeMembers(entries, EntryId, id);
    Exclude(entries, EntryId, id)
  }

  /** Deleting from a map with distinct ids leaves the ids distinct and
      drops exactly the deleted one. */
  lemma WithoutIds(entries: seq<PeerEntry>, id: SocketId)
    requires NoDuplicates(Ids(entries))
    ensures NoDuplicates(Ids(Without(entries, id)))
    ensures forall q :: q in Ids(Without(entries, id)) <==> q in Ids(entries) && q != id
  {
    var r := Without(entries, id);
    forall q ensures q in Ids(r) <==> q in Ids(entries) && q != id {
      if q in Ids(r) {
        var k :| 0 <= k < |r| && Ids(r)[k] == q;
        assert r[k] in r;
        var j :| 0 <= j < |entries| && entries[j] == r[k];
        assert Ids(entries)[j] == q;
      }
      if q in Ids(entries) && q != id {
        var j :| 0 <= j < |entries| && Ids(entries)[j] == q;
        assert entries[j] in r;
        var k :| 0 <= k < |r| && r[k] == entries[j];
        assert Ids(r)[k] == q;
      }
    }
    SubsequenceIds(r, entries);
  }

  /** A sub-sequence of a sequence with distinct ids has distinct ids. */
  lemma {:induction false} SubsequenceIds(a: seq<PeerEntry>, b: seq<PeerEntry>)
    requires IsSubsequence(a, b) && NoDuplicates(Ids(b))
    ensures NoDuplicates(Ids(a))
    decreases |b|
  {
    if a != [] && b != [] {
      var a', b' := a[..|a| - 1], b[..|b| - 1];
      assert Ids(b') == Ids(b)[..|b'|];
      if a[|a| - 1] == b[|b| - 1] && IsSubsequence(a', b') {
        SubsequenceIds(a', b');
        SubsequenceMembers(a', b');
        assert Ids(a) == Ids(a') + [a[|a| - 1].id];
        forall i | 0 <= i < |a'| ensures Ids(a)[i] != Ids(a)[|a'|] {
          assert a'[i] in b';
          var j :| 0 <= j < |b'| && b'[j] == a'[i];
          assert Ids(b)[j] == Ids(a)[i];
          assert Ids(b)[|b'|] == Ids(a)[|a'|];
        }
      } else {
        SubsequenceIds(a, b');
      }
    }
  }

  /** Setting keeps the ids distinct and adds exactly the set one. */
  lemma SetEntryIds(entries: seq<PeerEntry>, e: PeerEntry)
    requires NoDuplicates(Ids(entries))
    ensures NoDuplicates(Ids(SetEntry(entries, e)))
    ensures forall q :: q in Ids(SetEntry(entries, e)) <==> q in Ids(entries) || q == e.id
    ensures e.id in Ids(entries) ==> Ids(SetEntry(entries, e)) == Ids(entries)
  {
    var r := SetEntry(entries, e);
    if e.id in Ids(entries) {
      assert forall i :: 0 <= i < |r| ==> Ids(r)[i] == Ids(entries)[i];
      assert Ids(r) == Ids(entries);
    } else {
      assert Ids(r) == Ids(entries) + [e.id];
    }
  }

  class Relay {
    /** `peers`, as its entries in insertion order. */
    var entries: seq<PeerEntry>
    var outbox: seq<Delivery>
    /** The process has ended: the async `message` handler threw, the
        rejection went unhandled, and Node's default ends the process. No
        handler runs after that. */
    var halted: bool

    /** A map holds each key once. */
    ghost predicate Valid()
      reads this
    {
      NoDuplicates(Ids(entries))
    }

    constructor ()
      ensures Valid() && entries == [] && outbox == [] && !halted
    {
      entries, outbox, halted := [], [], false;
    }

    /** The peer entry of `id`, as `peers.get(id)` returns it. */
    function Get(id: SocketId): (r: Option<PeerEntry>)
      reads this
      ensures r.None? <==> id !in Ids(entries)
      ensures r.Some? ==> r.value in entries && r.value.id == id
    {
      var r := Find(entries, (e: PeerEntry) => e.id == id);
      assert r.None? ==> forall i :: 0 <= i < |entries| ==> Ids(entries)[i] != id;
      r
    }

    /** `connection`: register the socket under its (randomly drawn) id. An
        id already in use has its entry replaced, name dropped. */
    method Connection(id: SocketId)
      requires Valid() && !halted
      modifies this`entries
      ensures Valid()
      ensures entries == SetEntry(old(entries), PeerEntry(id, None))
      ensures forall q :: q in Ids(entries) <==> q in Ids(old(entries)) || q == id
    {
      SetEntryIds(entries, PeerEntry(id, None));
      entries := SetEntry(entries, PeerEntry(id, None));
    }

    /** `broadcast`: send the message to every registered peer, in map order. */
    method Broadcast(message: RelayMessage)
      modifies this`outbox
      ensures outbox == old(outbox) + BroadcastTo(entries, message)
    {
      var i := 0;
      while i < |entries|
        invariant 0 <= i <= |entries|
        invariant outbox == old(outbox) + BroadcastTo(entries[..i], message)
      {
        assert entries[..i + 1] == entries[..i] + [entries[i]];
        BroadcastToSnoc(entries[..i], entries[i], message);
        outbox := outbox + [Delivery(entries[i].id, message)];
        i := i + 1;
      }
      assert entries[..i] == entries;
    }

    /** `forwardTo`: send to that one peer, or to no one if it is unknown. */
    method ForwardTo(id: SocketId, message: RelayMessage)
      modifies this`outbox
      ensures id in Ids(entries) ==> outbox == old(outbox) + [Delivery(id, message)]
      ensures id !in Ids(entries) ==> outbox == old(outbox)
    {
      var peer := Get(id);
      if peer.None? {
        return;
      }
      outbox := outbox + [Delivery(id, message)];
    }

    /** `join`: name the sender's entry and announce it to everyone, the
        sender included. For a sender with no entry (its id was drawn again
        by a later connection that has since closed), setting the name
        throws and the process ends before anything is sent. */
    method Join(sender: SocketId, name: string)
      requires Valid() && !halted
      modifies this`entries, this`outbox, this`halted
      ensures Valid()
      ensures sender !in Ids(old(entries)) ==> halted && entries == old(entries) && outbox == old(outbox)
      ensures sender in Ids(old(entries)) ==>
                && !halted
                && entries == SetEntry(old(entries), PeerEntry(sender, Some(name)))
                && outbox == old(outbox) + BroadcastTo(entries, UserJoined(sender, name))
      ensures Ids(entries) == Ids(old(entries))
    {
      var peer := Get(sender);
      if peer.None? {
        halted := true;
        return;
      }
      SetEntryIds(entries, PeerEntry(sender, Some(name)));
      entries := SetEntry(entries, PeerEntry(sender, Some(name)));
      Broadcast(UserJoined(sender, name));
    }

    /** `signal`: forward the payload to the addressed peer only. */
    method SignalPeer(sender: SocketId, to: SocketId, signal: Payload)
      modifies this`outbox
      ensures to in Ids(entries) ==> outbox == old(outbox) + [Delivery(to, Signal(sender, signal))]
      ensures to !in Ids(entries) ==> outbox == old(outbox)
    {
      ForwardTo(to, Signal(sender, signal));
    }

    /** `chat`: send the message to every registered peer. */
    method ChatAll(sender: SocketId, message: string)
      modifies this`outbox
      ensures outbox == old(outbox) + BroadcastTo(entries, Chat(sender, message))
    {
      Broadcast(Chat(sender, message));
    }

    /** The `message` handler: parse, then dispatch on the message type. */
    method OnMessage(sender: SocketId, m: ClientMessage)
      requires Valid() && !halted
      modifies this`entries, this`outbox, this`halted
      ensures Valid()
      ensures !m.JoinRequest? ==> entries == old(entries)
      ensures (m.Unknown? || m.Malformed?) ==> outbox == old(outbox)
      ensures halted <==> m.Malformed? || (m.JoinRequest? && sender !in Ids(old(entries)))
      ensures m.SignalRequest? ==> outbox == old(outbox) + (if m.to in Ids(entries) then [Delivery(m.to, Signal(sender, m.signal))] else [])
      ensures m.ChatRequest? ==> outbox == old(outbox) + BroadcastTo(entries, Chat(sender, m.message))
      ensures m.JoinRequest? ==> Ids(entries) == Ids(old(entries))
                                 && (sender !in Ids(entries) ==> entries == old(entries) && outbox == old(outbox))
                                 && (sender in Ids(entries) ==>
                                       && entries == SetEntry(old(entries), PeerEntry(sender, Some(m.name)))
                                       && outbox == old(outbox) + BroadcastTo(entries, UserJoined(sender, m.name)))
    {
      match m {
        case JoinRequest(name) => Join(sender, name);
        case SignalRequest(to, signal) => SignalPeer(sender, to, signal);
        case ChatRequest(message) => ChatAll(sender, message);
        case Unknown =>
        case Malformed => halted := true;
      }
    }

    /** `close`: delete the entry, then tell everyone who is left. */
    method Close(id: SocketId)
      requires Valid() && !halted
      modifies this`entries, this`outbox
      ensures Valid()
      ensures entries == Without(old(entries), id)
      ensures outbox == old(outbox) + BroadcastTo(entries, UserLeft(id))
      ensures forall q :: q in Ids(entries) <==> q in Ids(old(entries)) && q != id
    {
      WithoutIds(entries, id);
      entries := Without(entries, id);
      Broadcast(UserLeft(id));
    }
  }

  /** The closing peer is not told that it left; every remaining peer is
      told once. */
  lemma CloseNotifiesOthersOnce(entries: seq<PeerEntry>, id: SocketId, t: SocketId)
    requires NoDuplicates(Ids(entries))
    ensures |Select(BroadcastTo(Without(entries, id), UserLeft(id)), DeliveryTarget, t)|
         == if t in Ids(entries) && t != id then 1 else 0
  {
    WithoutIds(entries, id);
    BroadcastReachesEachOnce(Without(entries, id), UserLeft(id), t);
  }
}
