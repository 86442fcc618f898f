/** The values the room view model works with: peers and track events as
    the RTC library delivers them, the `Participant` record the view model
    keeps per roster entry, and the pure list computations behind the
    published snapshot (`values.first()`, `drop(1)`, `find`, `filter`). */
module Roster {
  import opened Common

  type TrackId = string

  /** A value in a metadata bag; only strings and booleans are read. */
  datatype MetaValue = MStr(s: string) | MBool(b: bool)

  type Metadata = map<string, MetaValue>

  /** A remote peer as announced by the engine. */
  datatype Peer = Peer(id: string, metadata: Metadata)

  /** The track carried by a track event; `OtherTrack` is any track object
      that is neither a remote video nor a remote audio track. `localId` is
      what the track handle's `id()` returns. */
  datatype RemoteTrack =
    | RemoteVideoTrack(localId: TrackId)
    | RemoteAudioTrack(localId: TrackId)
    | OtherTrack(localId: TrackId)

  /** A track event: the sending peer, the transport-global track id, the
      track handle and the track's metadata. */
  datatype TrackContext = TrackContext(peer: Peer, trackId: TrackId, track: RemoteTrack, metadata: Metadata)

  /** A local track handle reduced to its id and its enabled flag. */
  datatype LocalTrack = LocalTrack(id: TrackId, enabled: bool)

  /** One roster entry; tracks are referenced by their session-local ids. */
  datatype Participant = Participant(
    id: string,
    displayName: string,
    videoTrack: Option<TrackId>,
    audioTrack: Option<TrackId>,
    tracksMetadata: map<TrackId, Metadata>,
    vadStatus: VadStatus)

  /** A participant with no tracks and no track metadata yet. */
  function NewParticipant(id: string, displayName: string): (p: Participant)
    ensures p.id == id && p.displayName == displayName
    ensures p.videoTrack == None && p.audioTrack == None && p.tracksMetadata == map[]
  {
    Participant(id, displayName, None, None, map[], Silence)
  }

  /** `metadata["type"] == tag`: a missing type is null and equals no tag. */
  predicate HasType(metadata: Metadata, tag: string): (r: bool)
    ensures r <==> Get(metadata, "type") == Some(MStr(tag))
  {
    "type" in metadata && metadata["type"] == MStr(tag)
  }

  /** `peer.metadata["displayName"] as? String ?: "UNKNOWN"` */
  function DisplayNameOf(peer: Peer): (name: string)
    ensures "displayName" in peer.metadata && peer.metadata["displayName"].MStr? ==> name == peer.metadata["displayName"].s
    ensures !("displayName" in peer.metadata && peer.metadata["displayName"].MStr?) ==> name == "UNKNOWN"
  {
    if "displayName" in peer.metadata && peer.metadata["displayName"].MStr? then peer.metadata["displayName"].s
    else "UNKNOWN"
  }

  /** The local id of an optional track handle (`track?.id()`). */
  function IdOf(t: Option<LocalTrack>): (r: Option<TrackId>)
    ensures r.Some? <==> t.Some?
    ensures t.Some? ==> r.value == t.value.id
  {
    if t.Some? then Some(t.value.id) else None
  }

  /** The `{"active": on}` bag the view model mirrors into its own record. */
  function ActiveFlag(on: bool): Metadata {
    map["active" := MBool(on)]
  }

  /** The bag sent to the engine when a local track is switched on or off. */
  function ActiveWithType(on: bool, tag: string): Metadata {
    map["active" := MBool(on), "type" := MStr(tag)]
  }

  /** The switch bags: the mirrored one carries only `active` and no type;
      the one sent to the engine carries `active` and exactly the given
      type. */
  lemma SwitchBags(on: bool, tag: string)
    ensures ActiveFlag(on).Keys == {"active"} && ActiveFlag(on)["active"] == MBool(on)
    ensures !HasType(ActiveFlag(on), tag)
    ensures ActiveWithType(on, tag).Keys == {"active", "type"} && ActiveWithType(on, tag)["active"] == MBool(on)
    ensures forall t :: HasType(ActiveWithType(on, tag), t) <==> t == tag
  {
  }

  /** Per-key merge of `update` over `base`: the update wins on shared keys. */
  function Merge(base: Metadata, update: Metadata): (r: Metadata)
    ensures r.Keys == base.Keys + update.Keys
    ensures forall k :: k in update ==> r[k] == update[k]
    ensures forall k :: k in base && k !in update ==> r[k] == base[k]
  {
    base + update
  }

  /** `Participant.updateTrackMetadata(trackId, metadata)`. Its source is
      not part of this model; it is taken to merge `metadata` key by key
      into the bag kept for `trackId`, and to do nothing for a null id. */
  function WithTrackMetadata(p: Participant, trackId: Option<TrackId>, metadata: Metadata): (r: Participant)
    ensures r.id == p.id && r.displayName == p.displayName && r.vadStatus == p.vadStatus
    ensures r.videoTrack == p.videoTrack && r.audioTrack == p.audioTrack
    ensures trackId.None? ==> r.tracksMetadata == p.tracksMetadata
    ensures trackId.Some? ==> r.tracksMetadata.Keys == p.tracksMetadata.Keys + {trackId.value}
    ensures trackId.Some? ==>
              && trackId.value in r.tracksMetadata
              && forall k :: k in metadata ==>
                   k in r.tracksMetadata[trackId.value] && r.tracksMetadata[trackId.value][k] == metadata[k]
    ensures trackId.Some? && trackId.value in p.tracksMetadata ==>
              && trackId.value in r.tracksMetadata
              && forall k :: k in p.tracksMetadata[trackId.value] && k !in metadata ==>
                   k in r.tracksMetadata[trackId.value] && r.tracksMetadata[trackId.value][k] == p.tracksMetadata[trackId.value][k]
    ensures forall t :: t in p.tracksMetadata && Some(t) != trackId ==> r.tracksMetadata[t] == p.tracksMetadata[t]
  {
    if trackId.None? then p
    else
      var t := trackId.value;
      var base := if t in p.tracksMetadata then p.tracksMetadata[t] else map[];
      p.(tracksMetadata := p.tracksMetadata[t := Merge(base, metadata)])
  }

  /** The local participant `onConnected` registers: "Me", holding both
      local tracks, each track's bag marked `active` with the track's state
      (the camera's mark wins should both tracks share an id). */
  function LocalParticipant(peerId: string, audio: LocalTrack, video: LocalTrack): (p: Participant)
    ensures p.id == peerId && p.displayName == "Me"
    ensures p.videoTrack == Some(video.id) && p.audioTrack == Some(audio.id)
    ensures p.tracksMetadata.Keys == {audio.id, video.id}
    ensures p.tracksMetadata[video.id] == ActiveFlag(video.enabled)
    ensures audio.id != video.id ==> p.tracksMetadata[audio.id] == ActiveFlag(audio.enabled)
  {
    var me := Participant(peerId, "Me", Some(video.id), Some(audio.id), map[], Silence);
    WithTrackMetadata(WithTrackMetadata(me, me.audioTrack, ActiveFlag(audio.enabled)), me.videoTrack, ActiveFlag(video.enabled))
  }

  /** `o` lists every key of `keys` exactly once: a HashMap's iteration
      order over its key set. */
  predicate Enumerates<K>(o: seq<K>, keys: set<K>)
    decreases |o|
  {
    if o == [] then keys == {}
    else o[0] in keys && Enumerates(o[1..], keys - {o[0]})
  }

  /** An enumeration holds exactly the keys, each once. */
  lemma {:induction false} EnumerationMembers<K>(o: seq<K>, keys: set<K>)
    requires Enumerates(o, keys)
    ensures forall k :: k in o <==> k in keys
    ensures NoDuplicates(o)
  {
    if o != [] {
      var rest := o[1..];
      EnumerationMembers(rest, keys - {o[0]});
      forall k ensures k in o <==> k in keys {
        if k in o && k != o[0] {
          var j :| 0 <= j < |o| && o[j] == k;
          assert rest[j - 1] == k;
        }
        if k in rest {
          var j :| 0 <= j < |rest| && rest[j] == k;
          assert o[j + 1] == k;
        }
      }
      forall i, j | 0 <= i < j < |o| ensures o[i] != o[j] {
        assert o[j] == rest[j - 1];
        if i > 0 {
          assert o[i] == rest[i - 1];
        }
      }
    }
  }

  /** Conversely, a duplicate-free list of exactly the keys enumerates them. */
  lemma {:induction false} MembersEnumeration<K>(o: seq<K>, keys: set<K>)
    requires NoDuplicates(o)
    requires forall k :: k in o <==> k in keys
    ensures Enumerates(o, keys)
  {
    if o == [] {
      assert forall k :: k !in keys;
    } else {
      var rest := o[1..];
      forall k ensures k in rest <==> k in keys - {o[0]} {
        if k in rest {
          var j :| 0 <= j < |rest| && rest[j] == k;
          assert o[j + 1] == k;
        }
        if k in o && k != o[0] {
          var j :| 0 <= j < |o| && o[j] == k;
          assert rest[j - 1] == k;
        }
      }
      assert NoDuplicates(rest) by {
        forall i, j | 0 <= i < j < |rest| ensures rest[i] != rest[j] {
          assert rest[i] == o[i + 1] && rest[j] == o[j + 1];
        }
      }
      MembersEnumeration(rest, keys - {o[0]});
    }
  }

  /** A duplicate-free enumeration of a key set is as long as the set is big. */
  lemma {:induction false} EnumerationSize<K>(o: seq<K>, keys: set<K>)
    requires Enumerates(o, keys)
    ensures |o| == |keys|
  {
    if o != [] {
      EnumerationSize(o[1..], keys - {o[0]});
    }
  }

  /** A new key may be enumerated last (so some enumeration exists after
      inserting it). */
  lemma EnumerationAppend<K>(o: seq<K>, keys: set<K>, k: K)
    requires Enumerates(o, keys)
    requires k !in keys
    ensures Enumerates(o + [k], keys + {k})
  {
    EnumerationMembers(o, keys);
    MembersEnumeration(o + [k], keys + {k});
  }

  /** Dropping a key from an enumeration enumerates the remaining keys. */
  lemma EnumerationWithout<K(!new)>(o: seq<K>, keys: set<K>, k: K)
    requires Enumerates(o, keys)
    ensures Enumerates(Without(o, k), keys - {k})
  {
    EnumerationMembers(o, keys);
    MembersEnumeration(Without(o, k), keys - {k});
  }

  /** The registry's values in iteration order (`mutableParticipants.values`). */
  function ValuesOf(o: seq<string>, registry: map<string, Participant>): (vs: seq<Participant>)
    requires forall k :: k in o ==> k in registry
    ensures |vs| == |o|
  {
    if o == [] then [] else [registry[o[0]]] + ValuesOf(o[1..], registry)
  }

  /** Position `i` of the value list holds the entry of the `i`-th key. */
  lemma {:induction false} ValuesOfAt(o: seq<string>, registry: map<string, Participant>, i: nat)
    requires forall k :: k in o ==> k in registry
    requires i < |o|
    ensures ValuesOf(o, registry)[i] == registry[o[i]]
  {
    if i > 0 {
      ValuesOfAt(o[1..], registry, i - 1);
    }
  }

  /** The snapshot `emitParticipants` derives from a non-empty registry
      splits it: the primary is the entry of the first key, the rest list
      has one element fewer than the registry, holds every other entry and
      nothing that is not an entry under another key. */
  lemma SnapshotSplitsRegistry(o: seq<string>, registry: map<string, Participant>)
    requires Enumerates(o, registry.Keys)
    requires registry != map[]
    ensures forall k :: k in o <==> k in registry
    ensures |o| > 0 && ValuesOf(o, registry)[0] == registry[o[0]]
    ensures |ValuesOf(o, registry)[1..]| == |registry| - 1
    ensures forall k :: k in registry && k != o[0] ==> registry[k] in ValuesOf(o, registry)[1..]
    ensures forall p :: p in ValuesOf(o, registry)[1..] ==> exists k :: k in registry && k != o[0] && registry[k] == p
  {
    EnumerationMembers(o, registry.Keys);
    var vs := ValuesOf(o, registry);
    EnumerationSize(o, registry.Keys);
    assert |o| > 0 by {
      var k :| k in registry;
    }
    ValuesOfAt(o, registry, 0);
    forall k | k in registry && k != o[0] ensures registry[k] in vs[1..] {
      var j :| 0 <= j < |o| && o[j] == k;
      ValuesOfAt(o, registry, j);
      assert vs[1..][j - 1] == vs[j];
    }
    forall p | p in vs[1..] ensures exists k :: k in registry && k != o[0] && registry[k] == p {
      var j :| 0 <= j < |vs[1..]| && vs[1..][j] == p;
      ValuesOfAt(o, registry, j + 1);
      assert o[j + 1] != o[0];
    }
  }

  /** Every entry is keyed by its own id. */
  predicate KeyedById(registry: map<string, Participant>) {
    forall k :: k in registry ==> registry[k].id == k
  }

  /** When every entry is keyed by its own id, no participant in the rest
      list shares the primary's id, so the primary does not reappear
      there. */
  lemma PrimaryNotInRest(o: seq<string>, registry: map<string, Participant>)
    requires Enumerates(o, registry.Keys)
    requires registry != map[]
    requires KeyedById(registry)
    ensures forall k :: k in o <==> k in registry
    ensures |o| > 0 && forall p :: p in ValuesOf(o, registry)[1..] ==> p.id != registry[o[0]].id
    ensures registry[o[0]] !in ValuesOf(o, registry)[1..]
  {
    SnapshotSplitsRegistry(o, registry);
    forall p | p in ValuesOf(o, registry)[1..] ensures p.id != registry[o[0]].id {
      var k :| k in registry && k != o[0] && registry[k] == p;
    }
  }

  /** The first value whose `id` field is `id` (`find { it.id == id }`). */
  function FindById(vs: seq<Participant>, id: string): (r: Option<Participant>)
    ensures r.None? <==> forall p :: p in vs ==> p.id != id
    ensures r.Some? ==> r.value.id == id && r.value in vs
    ensures r.Some? ==> exists i :: 0 <= i < |vs| && vs[i] == r.value && forall j :: 0 <= j < i ==> vs[j].id != id
  {
    if vs == [] then None
    else if vs[0].id == id then Some(vs[0])
    else
      FindById(vs[1..], id)
  }

  /** The values whose `id` field differs from `id`, in order
      (`filter { it.id != id }`). */
  function WithoutId(vs: seq<Participant>, id: string): (r: seq<Participant>)
    ensures forall p :: p in r <==> p in vs && p.id != id
    ensures |r| <= |vs|
  {
    if vs == [] then []
    else if vs[0].id == id then WithoutId(vs[1..], id)
    else [vs[0]] + WithoutId(vs[1..], id)
  }

  /** The registry after putting a track-less entry for each peer in turn
      (`peersInRoom.forEach { mutableParticipants[it.id] = ... }`). */
  function AddPeers(registry: map<string, Participant>, peers: seq<Peer>): (r: map<string, Participant>)
    ensures KeyedById(registry) ==> KeyedById(r)
  {
    if peers == [] then registry
    else
      var last := peers[|peers| - 1];
      AddPeers(registry, peers[..|peers| - 1])[last.id := NewParticipant(last.id, DisplayNameOf(last))]
  }

  /** Joining adds exactly the peers' ids to the registry's keys. */
  lemma {:induction false} AddPeersKeys(registry: map<string, Participant>, peers: seq<Peer>)
    ensures AddPeers(registry, peers).Keys == registry.Keys + (set p | p in peers :: p.id)
  {
    if peers != [] {
      var init := peers[..|peers| - 1];
      var last := peers[|peers| - 1];
      AddPeersKeys(registry, init);
      assert peers == init + [last];
      assert (set p | p in peers :: p.id) == (set p | p in init :: p.id) + {last.id};
    }
  }

  /** Joining keeps every entry whose key is no peer's id. */
  lemma {:induction false} AddPeersKeepsOthers(registry: map<string, Participant>, peers: seq<Peer>, k: string)
    requires k in registry
    requires forall p :: p in peers ==> p.id != k
    ensures k in AddPeers(registry, peers) && AddPeers(registry, peers)[k] == registry[k]
  {
    if peers != [] {
      var init := peers[..|peers| - 1];
      assert forall p :: p in init ==> p in peers;
      AddPeersKeepsOthers(registry, init, k);
    }
  }

  /** Joining overwrites each listed id with a track-less entry named after
      the last peer listed under that id. */
  lemma {:induction false} AddPeersLastWins(registry: map<string, Participant>, peers: seq<Peer>, i: nat)
    requires i < |peers|
    requires forall j :: i < j < |peers| ==> peers[j].id != peers[i].id
    ensures peers[i].id in AddPeers(registry, peers)
    ensures AddPeers(registry, peers)[peers[i].id] == NewParticipant(peers[i].id, DisplayNameOf(peers[i]))
  {
    if i < |peers| - 1 {
      var init := peers[..|peers| - 1];
      assert init[i] == peers[i];
      assert forall j :: i < j < |init| ==> init[j] == peers[j];
      AddPeersLastWins(registry, init, i);
    }
  }
}
