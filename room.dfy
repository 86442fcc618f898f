/** The demo app's `RoomViewModel`: the participant roster it keeps from
    the RTC engine's callbacks and the user's actions, the snapshot it
    publishes (a primary participant and the rest), the translation from
    transport-global to session-local track ids, the two simulcast
    configurations, and the commands it sends to the engine, kept as an
    append-only log. Each callback runs to completion before the next. */
module Room {
  import opened Common
  import opened Simulcast
  import opened Roster

  /** A call the view model makes on the engine (`room.value?.…`). */
  datatype Command =
    | RoomConnect(displayName: string)
    | RoomDisconnect
    | CreateAudioTrack(metadata: Metadata)
    | CreateVideoTrack(simulcast: SimulcastConfig, metadata: Metadata)
    | Join
    | CreateScreencastTrack(simulcast: SimulcastConfig, metadata: Metadata)
    | RemoveTrack(trackId: TrackId)
    | UpdateTrackMetadata(trackId: TrackId, metadata: Metadata)
    | SetTargetTrackEncoding(trackId: TrackId, encoding: TrackEncoding)
    | EnableTrackEncoding(trackId: TrackId, encoding: TrackEncoding)
    | DisableTrackEncoding(trackId: TrackId, encoding: TrackEncoding)

  /** The exceptions a track callback throws. */
  datatype HandlerError = InvalidRemoteTrackType | TrackNotFoundForPeer

  datatype Outcome = Handled | Failed(error: HandlerError)

  /** Which local video track a simulcast toggle applies to. */
  datatype VideoSource = Camera | Screencast

  /** The metadata's `user_id`: the display name, or "" before `connect`. */
  function UserId(displayName: Option<string>): (id: string)
    ensures displayName.Some? ==> id == displayName.value
    ensures displayName.None? ==> id == ""
  {
    if displayName.Some? then displayName.value else ""
  }

  /** The metadata a local audio or camera track is created with. */
  function CreationMetadata(displayName: Option<string>, tag: string): Metadata {
    map["user_id" := MStr(UserId(displayName)), "active" := MBool(true), "type" := MStr(tag)]
  }

  /** The metadata the screencast track is created with. */
  function ScreencastMetadata(displayName: Option<string>): Metadata {
    map["type" := MStr("screensharing"), "user_id" := MStr(UserId(displayName))]
  }

  /** What `onConnected` sends once a session exists: the audio track's
      creation, the camera track's creation with the camera simulcast
      configuration, and the join. */
  function LocalTrackCommands(displayName: Option<string>, config: SimulcastConfig): seq<Command> {
    [CreateAudioTrack(CreationMetadata(displayName, "audio")),
     CreateVideoTrack(config, CreationMetadata(displayName, "camera")),
     Join]
  }

  /** The creation bags: the user id, `active` set for the audio and camera
      tracks, and exactly one type each; only the screencast's type is
      "screensharing". */
  lemma CreationBags(displayName: Option<string>, tag: string)
    ensures CreationMetadata(displayName, tag).Keys == {"user_id", "active", "type"}
    ensures CreationMetadata(displayName, tag)["user_id"] == MStr(UserId(displayName))
    ensures CreationMetadata(displayName, tag)["active"] == MBool(true)
    ensures forall t :: HasType(CreationMetadata(displayName, tag), t) <==> t == tag
    ensures ScreencastMetadata(displayName).Keys == {"type", "user_id"}
    ensures ScreencastMetadata(displayName)["user_id"] == MStr(UserId(displayName))
    ensures forall t :: HasType(ScreencastMetadata(displayName), t) <==> t == "screensharing"
  {
  }

  /** What `emitParticipants` leaves behind, given the registry, its
      iteration order and the snapshot before it: nothing changes for an
      empty registry; otherwise the first value is the primary and the
      other values, in order, are the rest. */
  ghost predicate Emitted(order: seq<string>, registry: map<string, Participant>,
                          primary: Option<Participant>, participants: seq<Participant>,
                          primary0: Option<Participant>, participants0: seq<Participant>)
    requires Enumerates(order, registry.Keys)
  {
    if registry == map[] then primary == primary0 && participants == participants0
    else
      EnumerationMembers(order, registry.Keys);
      EnumerationSize(order, registry.Keys);
      var vs := ValuesOf(order, registry);
      |vs| > 0 && primary == Some(vs[0]) && participants == vs[1..]
  }

  class RoomViewModel {
    /** Fresh id of the local peer (a random UUID in the app). */
    const localPeerId: string

    var localAudioTrack: Option<LocalTrack>
    var localVideoTrack: Option<LocalTrack>
    var localScreencastTrack: Option<LocalTrack>
    var localDisplayName: Option<string>

    /** `room.value != null`: engine commands are only sent when true. */
    var roomConnected: bool

    /** `mutableParticipants` and its iteration order. */
    var registry: map<string, Participant>
    var order: seq<string>

    /** The published snapshot. */
    var primary: Option<Participant>
    var participants: seq<Participant>

    var isMicrophoneOn: bool
    var isCameraOn: bool
    var isScreenCastOn: bool
    var localScreencastId: Option<string>

    /** `globalToLocalTrackId`. */
    var globalToLocal: map<TrackId, TrackId>

    var videoSimulcastConfig: SimulcastConfig
    var screencastSimulcastConfig: SimulcastConfig

    /** Every command sent to the engine, oldest first. */
    var log: seq<Command>

    /** `order` enumerates the registry's keys, and a screencast track is
        only ever held together with the roster id it was published under. */
    ghost predicate Valid()
      reads this`order, this`registry, this`localScreencastTrack, this`localScreencastId
    {
      && Enumerates(order, registry.Keys)
      && (localScreencastTrack.Some? ==> localScreencastId.Some?)
    }

    /** `mutableParticipants.values`, in iteration order. */
    function Values(): (vs: seq<Participant>)
      reads this`order, this`registry, this`localScreencastTrack, this`localScreencastId
      requires Valid()
      ensures |vs| == |registry|
    {
      EnumerationMembers(order, registry.Keys);
      EnumerationSize(order, registry.Keys);
      ValuesOf(order, registry)
    }

    /** While every entry is keyed by its own id, a published snapshot never
        lists the primary among the others: no one in the rest shares its
        id. */
    lemma PrimaryNotInParticipants(primary0: Option<Participant>, participants0: seq<Participant>)
      requires Valid() && KeyedById(registry) && registry != map[]
      requires Emitted(order, registry, primary, participants, primary0, participants0)
      ensures primary.Some? && primary.value !in participants
      ensures forall p :: p in participants ==> p.id != primary.value.id
    {
      PrimaryNotInRest(order, registry);
    }

    constructor (localPeerId: string)
      ensures Valid()
      ensures this.localPeerId == localPeerId
      ensures localAudioTrack == None && localVideoTrack == None && localScreencastTrack == None
      ensures localDisplayName == None && !roomConnected
      ensures registry == map[] && primary == None && participants == []
      ensures KeyedById(registry)
      ensures !isMicrophoneOn && !isCameraOn && !isScreenCastOn && localScreencastId == None
      ensures globalToLocal == map[]
      ensures videoSimulcastConfig == InitialVideoConfig && screencastSimulcastConfig == InitialScreencastConfig
      ensures log == []
    {
      this.localPeerId := localPeerId;
      localAudioTrack, localVideoTrack, localScreencastTrack := None, None, None;
      localDisplayName := None;
      roomConnected := false;
      registry, order := map[], [];
      primary, participants := None, [];
      isMicrophoneOn, isCameraOn, isScreenCastOn := false, false, false;
      localScreencastId := None;
      globalToLocal := map[];
      videoSimulcastConfig, screencastSimulcastConfig := InitialVideoConfig, InitialScreencastConfig;
      log := [];
    }

    // ---------------------------------------------------------------
    // The registry as a HashMap

    /** `mutableParticipants[k] = p`. Overwriting a key keeps the iteration
        order; a new key may reorder every key. */
    method Put(k: string, p: Participant)
      requires Valid()
      modifies this`registry, this`order
      ensures Valid()
      ensures registry == old(registry)[k := p]
      ensures k in old(registry) ==> order == old(order)
    {
      var keys := registry.Keys + {k};
      assert registry[k := p].Keys == keys;
      if k !in registry {
        EnumerationAppend(order, registry.Keys, k);
        var reordered :| Enumerates(reordered, keys);
        order := reordered;
      } else {
        assert keys == registry.Keys;
      }
      registry := registry[k := p];
    }

    /** `mutableParticipants.remove(k)`: the other keys keep their order. */
    method Remove(k: string)
      requires Valid()
      modifies this`registry, this`order
      ensures Valid()
      ensures registry == old(registry) - {k}
      ensures order == Without(old(order), k)
    {
      EnumerationWithout(order, registry.Keys, k);
      order := Without(order, k);
      registry := registry - {k};
    }

    /** `mutableParticipants[k] = p` followed by `emitParticipants()`. */
    method PutAndEmit(k: string, p: Participant)
      requires Valid()
      modifies this`registry, this`order, this`primary, this`participants
      ensures Valid()
      ensures registry == old(registry)[k := p]
      ensures k in old(registry) ==> order == old(order)
      ensures Emitted(order, registry, primary, participants, old(primary), old(participants))
    {
      Put(k, p);
      EmitParticipants();
    }

    /** `mutableParticipants.remove(k)` followed by `emitParticipants()`. */
    method RemoveAndEmit(k: string)
      requires Valid()
      modifies this`registry, this`order, this`primary, this`participants
      ensures Valid()
      ensures registry == old(registry) - {k}
      ensures order == Without(old(order), k)
      ensures Emitted(order, registry, primary, participants, old(primary), old(participants))
    {
      Remove(k);
      EmitParticipants();
    }

    /** `emitParticipants`. */
    method EmitParticipants()
      requires Valid()
      modifies this`primary, this`participants
      ensures Emitted(order, registry, primary, participants, old(primary), old(participants))
    {
      var candidates := Values();
      if |candidates| > 0 {
        primary := Some(candidates[0]);
        participants := candidates[1..];
      }
    }

    // ---------------------------------------------------------------
    // Session

    /** `connect`: drops the previous session and opens a new one. */
    method Connect(displayName: string)
      modifies this`localDisplayName, this`roomConnected, this`log
      ensures localDisplayName == Some(displayName) && roomConnected
      ensures log == old(log) + (if old(roomConnected) then [RoomDisconnect] else []) + [RoomConnect(displayName)]
    {
      localDisplayName := Some(displayName);
      if roomConnected {
        log := log + [RoomDisconnect];
      }
      log := log + [RoomConnect(displayName)];
      roomConnected := true;
    }

    /** `disconnect`. */
    method Disconnect()
      modifies this`roomConnected, this`log
      ensures !roomConnected
      ensures log == old(log) + (if old(roomConnected) then [RoomDisconnect] else [])
    {
      if roomConnected {
        log := log + [RoomDisconnect];
      }
      roomConnected := false;
    }

    /** The track-creating part of `onConnected`: the engine's answers are
        `audio` and `video`; the toggles start from the tracks' states. */
    method CreateLocalTracks(audio: LocalTrack, video: LocalTrack)
      modifies this`localAudioTrack, this`localVideoTrack, this`log, this`isCameraOn, this`isMicrophoneOn
      ensures localAudioTrack == Some(audio) && localVideoTrack == Some(video)
      ensures isMicrophoneOn == audio.enabled && isCameraOn == video.enabled
      ensures log == old(log) + LocalTrackCommands(localDisplayName, videoSimulcastConfig)
    {
      localAudioTrack := Some(audio);
      log := log + [CreateAudioTrack(CreationMetadata(localDisplayName, "audio"))];
      localVideoTrack := Some(video);
      log := log + [CreateVideoTrack(videoSimulcastConfig, CreationMetadata(localDisplayName, "camera"))];
      log := log + [Join];
      isCameraOn := video.enabled;
      isMicrophoneOn := audio.enabled;
    }

    /** The body of `onConnected` once a session exists. */
    method SetUpLocalParticipant(audio: LocalTrack, video: LocalTrack)
      requires Valid()
      modifies this`localAudioTrack, this`localVideoTrack, this`log, this`isCameraOn, this`isMicrophoneOn
      modifies this`registry, this`order, this`primary, this`participants
      ensures Valid()
      ensures localAudioTrack == Some(audio) && localVideoTrack == Some(video)
      ensures isMicrophoneOn == audio.enabled && isCameraOn == video.enabled
      ensures log == old(log) + LocalTrackCommands(localDisplayName, videoSimulcastConfig)
      ensures registry == old(registry)[localPeerId := LocalParticipant(localPeerId, audio, video)]
      ensures localPeerId in old(registry) ==> order == old(order)
      ensures Emitted(order, registry, primary, participants, old(primary), old(participants))
    {
      CreateLocalTracks(audio, video);
      PutAndEmit(localPeerId, LocalParticipant(localPeerId, audio, video));
    }

    /** `onConnected`: when a session exists, creates the local audio and
        camera tracks, joins, and registers the local participant "Me". */
    method OnConnected(audio: LocalTrack, video: LocalTrack)
      requires Valid()
      modifies this`localAudioTrack, this`localVideoTrack, this`log, this`isCameraOn, this`isMicrophoneOn
      modifies this`registry, this`order, this`primary, this`participants
      ensures Valid()
      ensures !roomConnected ==> unchanged(this`localAudioTrack, this`localVideoTrack, this`log, this`isCameraOn, this`isMicrophoneOn, this`registry, this`order, this`primary, this`participants)
      ensures roomConnected ==>
                && localAudioTrack == Some(audio) && localVideoTrack == Some(video)
                && isMicrophoneOn == audio.enabled && isCameraOn == video.enabled
                && log == old(log) + LocalTrackCommands(localDisplayName, videoSimulcastConfig)
                && registry == old(registry)[localPeerId := LocalParticipant(localPeerId, audio, video)]
                && (localPeerId in old(registry) ==> order == old(order))
                && Emitted(order, registry, primary, participants, old(primary), old(participants))
      ensures KeyedById(old(registry)) ==> KeyedById(registry)
    {
      if roomConnected {
        SetUpLocalParticipant(audio, video);
      }
    }

    /** `onJoinSuccess`: a track-less entry for every peer already in the
        room, overwriting any entry under the same id. */
    method OnJoinSuccess(peerId: string, peersInRoom: seq<Peer>)
      requires Valid()
      modifies this`registry, this`order, this`primary, this`participants
      ensures Valid()
      ensures registry == AddPeers(old(registry), peersInRoom)
      ensures (forall peer :: peer in peersInRoom ==> peer.id in old(registry)) ==> order == old(order)
      ensures Emitted(order, registry, primary, participants, old(primary), old(participants))
      ensures KeyedById(old(registry)) ==> KeyedById(registry)
    {
      var i := 0;
      while i < |peersInRoom|
        invariant 0 <= i <= |peersInRoom|
        invariant Valid()
        invariant registry == AddPeers(old(registry), peersInRoom[..i])
        invariant old(registry).Keys <= registry.Keys
        invariant (forall peer :: peer in peersInRoom ==> peer.id in old(registry)) ==> order == old(order)
        invariant primary == old(primary) && participants == old(participants)
      {
        var peer := peersInRoom[i];
        Put(peer.id, NewParticipant(peer.id, DisplayNameOf(peer)));
        assert peersInRoom[..i + 1][..i] == peersInRoom[..i];
        i := i + 1;
      }
      assert peersInRoom[..i] == peersInRoom;
      EmitParticipants();
    }

    /** `onPeerJoined`: a track-less entry for the peer, overwriting any
        entry it had. */
    method OnPeerJoined(peer: Peer)
      requires Valid()
      modifies this`registry, this`order, this`primary, this`participants
      ensures Valid()
      ensures registry == old(registry)[peer.id := NewParticipant(peer.id, DisplayNameOf(peer))]
      ensures peer.id in old(registry) ==> order == old(order)
      ensures Emitted(order, registry, primary, participants, old(primary), old(participants))
      ensures KeyedById(old(registry)) ==> KeyedById(registry)
    {
      PutAndEmit(peer.id, NewParticipant(peer.id, DisplayNameOf(peer)));
    }

    /** `onPeerLeft`: removes the peer's entry and nothing else; the track
        id table is left as it was (it is outside the frame). */
    method OnPeerLeft(peer: Peer)
      requires Valid()
      modifies this`registry, this`order, this`primary, this`participants
      ensures Valid()
      ensures registry == old(registry) - {peer.id}
      ensures order == Without(old(order), peer.id)
      ensures Emitted(order, registry, primary, participants, old(primary), old(participants))
      ensures KeyedById(old(registry)) ==> KeyedById(registry)
    {
      RemoveAndEmit(peer.id);
    }

    // ---------------------------------------------------------------
    // Track callbacks

    /** `onTrackReady`. A screensharing video track becomes an entry of its
        own keyed by the global track id; any other video or audio track is
        attached to its peer with its metadata under the local id. */
    method OnTrackReady(ctx: TrackContext) returns (outcome: Outcome)
      requires Valid()
      modifies this`registry, this`order, this`globalToLocal, this`primary, this`participants
      ensures Valid()
      ensures ctx.peer.id !in old(registry) ==> outcome == Handled && unchanged(this`registry, this`order, this`primary, this`participants, this`globalToLocal)
      ensures ctx.peer.id in old(registry) && ctx.track.OtherTrack? ==>
                outcome == Failed(InvalidRemoteTrackType) && unchanged(this`registry, this`order, this`primary, this`participants, this`globalToLocal)
      ensures ctx.peer.id in old(registry) && !ctx.track.OtherTrack? ==>
                && outcome == Handled
                && globalToLocal == old(globalToLocal)[ctx.trackId := ctx.track.localId]
                && Emitted(order, registry, primary, participants, old(primary), old(participants))
      ensures ctx.peer.id in old(registry) && ctx.track.RemoteVideoTrack? && HasType(ctx.metadata, "screensharing") ==>
                var sharer := old(registry)[ctx.peer.id];
                && registry == old(registry)[ctx.trackId := sharer.(
                     id := ctx.trackId,
                     displayName := sharer.displayName + " (screencast)",
                     videoTrack := Some(ctx.track.localId))]
                && (ctx.trackId in old(registry) ==> order == old(order))
      ensures ctx.peer.id in old(registry) && ctx.track.RemoteVideoTrack? && !HasType(ctx.metadata, "screensharing") ==>
                var p := old(registry)[ctx.peer.id];
                && registry == old(registry)[ctx.peer.id := p.(
                     videoTrack := Some(ctx.track.localId),
                     tracksMetadata := p.tracksMetadata[ctx.track.localId := ctx.metadata])]
                && order == old(order)
      ensures ctx.peer.id in old(registry) && ctx.track.RemoteAudioTrack? ==>
                var p := old(registry)[ctx.peer.id];
                && registry == old(registry)[ctx.peer.id := p.(
                     audioTrack := Some(ctx.track.localId),
                     tracksMetadata := p.tracksMetadata[ctx.track.localId := ctx.metadata])]
                && order == old(order)
      ensures KeyedById(old(registry)) ==> KeyedById(registry)
    {
      if ctx.peer.id !in registry {
        return Handled;
      }
      var participant := registry[ctx.peer.id];
      var key: string;
      var updated: Participant;
      match ctx.track {
        case RemoteVideoTrack(localId) =>
          globalToLocal := globalToLocal[ctx.trackId := localId];
          if HasType(ctx.metadata, "screensharing") {
            key := ctx.trackId;
            updated := participant.(
              id := ctx.trackId,
              displayName := participant.displayName + " (screencast)",
              videoTrack := Some(localId));
          } else {
            var p := participant.(videoTrack := Some(localId));
            key := ctx.peer.id;
            updated := p.(tracksMetadata := p.tracksMetadata[globalToLocal[ctx.trackId] := ctx.metadata]);
          }
        case RemoteAudioTrack(localId) =>
          globalToLocal := globalToLocal[ctx.trackId := localId];
          var p := participant.(audioTrack := Some(localId));
          key := ctx.peer.id;
          updated := p.(tracksMetadata := p.tracksMetadata[globalToLocal[ctx.trackId] := ctx.metadata]);
        case OtherTrack(_) =>
          return Failed(InvalidRemoteTrackType);
      }
      PutAndEmit(key, updated);
      outcome := Handled;
    }

    /** The voice-activity listener `onTrackReady` installs: records the
        peer's new status when the peer is still registered. */
    method OnVoiceActivityChanged(peerId: string, status: VadStatus)
      requires Valid()
      modifies this`registry, this`order, this`primary, this`participants
      ensures Valid()
      ensures peerId !in old(registry) ==> unchanged(this`registry, this`order, this`primary, this`participants)
      ensures peerId in old(registry) ==>
                && registry == old(registry)[peerId := old(registry)[peerId].(vadStatus := status)]
                && order == old(order)
                && Emitted(order, registry, primary, participants, old(primary), old(participants))
      ensures KeyedById(old(registry)) ==> KeyedById(registry)
    {
      if peerId in registry {
        PutAndEmit(peerId, registry[peerId].(vadStatus := status));
      }
    }

    /** `onTrackRemoved`. A screensharing track removes the entry and the
        id mapping keyed by the global track id. Otherwise the peer's slot
        whose id the global id maps to is cleared, the video slot checked
        first (an unmapped id matches an empty slot); when neither slot
        matches, the callback fails before changing anything. */
    method OnTrackRemoved(ctx: TrackContext) returns (outcome: Outcome)
      requires Valid()
      modifies this`registry, this`order, this`globalToLocal, this`primary, this`participants
      ensures Valid()
      ensures HasType(ctx.metadata, "screensharing") ==>
                && outcome == Handled
                && registry == old(registry) - {ctx.trackId}
                && order == Without(old(order), ctx.trackId)
                && globalToLocal == old(globalToLocal) - {ctx.trackId}
                && Emitted(order, registry, primary, participants, old(primary), old(participants))
      ensures !HasType(ctx.metadata, "screensharing") && ctx.peer.id !in old(registry) ==>
                outcome == Handled && unchanged(this`registry, this`order, this`primary, this`participants, this`globalToLocal)
      ensures !HasType(ctx.metadata, "screensharing") && ctx.peer.id in old(registry) ==>
                var p := old(registry)[ctx.peer.id];
                var localId := Get(old(globalToLocal), ctx.trackId);
                if localId == p.videoTrack || localId == p.audioTrack then
                  && outcome == Handled
                  && registry == old(registry)[ctx.peer.id :=
                       if localId == p.videoTrack then p.(videoTrack := None) else p.(audioTrack := None)]
                  && order == old(order)
                  && globalToLocal == old(globalToLocal) - {ctx.trackId}
                  && Emitted(order, registry, primary, participants, old(primary), old(participants))
                else
                  outcome == Failed(TrackNotFoundForPeer) && unchanged(this`registry, this`order, this`primary, this`participants, this`globalToLocal)
      ensures KeyedById(old(registry)) ==> KeyedById(registry)
    {
      if HasType(ctx.metadata, "screensharing") {
        RemoveAndEmit(ctx.trackId);
        globalToLocal := globalToLocal - {ctx.trackId};
        return Handled;
      }
      if ctx.peer.id !in registry {
        return Handled;
      }
      var participant := registry[ctx.peer.id];
      var localTrackId := Get(globalToLocal, ctx.trackId);
      var updated: Participant;
      if localTrackId == participant.videoTrack {
        updated := participant.(videoTrack := None);
      } else if localTrackId == participant.audioTrack {
        updated := participant.(audioTrack := None);
      } else {
        return Failed(TrackNotFoundForPeer);
      }
      globalToLocal := globalToLocal - {ctx.trackId};
      PutAndEmit(ctx.peer.id, updated);
      outcome := Handled;
    }

    /** `onTrackUpdated`, as written: the LOCAL participant's record, with
        the event's metadata merged into its camera (for a "camera" event)
        or audio track's bag, is stored under the event's peer id. */
    method OnTrackUpdated(ctx: TrackContext)
      requires Valid()
      modifies this`registry, this`order, this`primary, this`participants
      ensures Valid()
      ensures localPeerId !in old(registry) ==> registry == old(registry) && order == old(order)
      ensures localPeerId in old(registry) ==>
                var p := old(registry)[localPeerId];
                && registry == old(registry)[ctx.peer.id :=
                     WithTrackMetadata(p, if HasType(ctx.metadata, "camera") then p.videoTrack else p.audioTrack, ctx.metadata)]
                && (ctx.peer.id in old(registry) ==> order == old(order))
      ensures Emitted(order, registry, primary, participants, old(primary), old(participants))
    {
      if localPeerId in registry {
        var p := registry[localPeerId];
        if HasType(ctx.metadata, "camera") {
          Put(ctx.peer.id, WithTrackMetadata(p, p.videoTrack, ctx.metadata));
        } else {
          Put(ctx.peer.id, WithTrackMetadata(p, p.audioTrack, ctx.metadata));
        }
      }
      EmitParticipants();
    }

    /** What `onTrackUpdated` evidently means to do: merge the event's
        metadata into the camera (for a "camera" event) or audio track's bag
        of the SENDING peer's own record; an unregistered peer is left
        alone. */
    method OnTrackUpdatedIntended(ctx: TrackContext)
      requires Valid()
      modifies this`registry, this`order, this`primary, this`participants
      ensures Valid()
      ensures ctx.peer.id !in old(registry) ==> registry == old(registry) && order == old(order)
      ensures ctx.peer.id in old(registry) ==>
                var p := old(registry)[ctx.peer.id];
                && registry == old(registry)[ctx.peer.id :=
                     WithTrackMetadata(p, if HasType(ctx.metadata, "camera") then p.videoTrack else p.audioTrack, ctx.metadata)]
                && order == old(order)
      ensures Emitted(order, registry, primary, participants, old(primary), old(participants))
      ensures KeyedById(old(registry)) ==> KeyedById(registry)
    {
      if ctx.peer.id in registry {
        var p := registry[ctx.peer.id];
        Put(ctx.peer.id, WithTrackMetadata(p, if HasType(ctx.metadata, "camera") then p.videoTrack else p.audioTrack, ctx.metadata));
      }
      EmitParticipants();
    }

    // ---------------------------------------------------------------
    // Local controls

    /** The local participant's record with `{"active": on}` merged into
        the bag of its audio track (`audio`) or its camera track. */
    method MirrorActive(audio: bool, on: bool)
      requires Valid()
      modifies this`registry, this`order
      ensures Valid()
      ensures order == old(order)
      ensures localPeerId !in old(registry) ==> registry == old(registry)
      ensures localPeerId in old(registry) ==>
                var p := old(registry)[localPeerId];
                registry == old(registry)[localPeerId := WithTrackMetadata(p, if audio then p.audioTrack else p.videoTrack, ActiveFlag(on))]
    {
      if localPeerId in registry {
        var p := registry[localPeerId];
        Put(localPeerId, WithTrackMetadata(p, if audio then p.audioTrack else p.videoTrack, ActiveFlag(on)));
      }
    }

    /** The `localAudioTrack?.let { ... }` block of `toggleMicrophone`:
        flips the track, records the new state, tells the engine. */
    method SwitchLocalAudio()
      modifies this`localAudioTrack, this`isMicrophoneOn, this`log
      ensures old(localAudioTrack).None? ==>
                localAudioTrack == None && isMicrophoneOn == old(isMicrophoneOn) && log == old(log)
      ensures old(localAudioTrack).Some? ==>
                var t := old(localAudioTrack).value;
                && localAudioTrack == Some(t.(enabled := !t.enabled))
                && isMicrophoneOn == !t.enabled
                && log == old(log) + (if roomConnected then [UpdateTrackMetadata(t.id, ActiveWithType(!t.enabled, "audio"))] else [])
    {
      if localAudioTrack.Some? {
        var t := localAudioTrack.value;
        var enabled := !t.enabled;
        localAudioTrack := Some(t.(enabled := enabled));
        isMicrophoneOn := enabled;
        if roomConnected {
          log := log + [UpdateTrackMetadata(t.id, ActiveWithType(enabled, "audio"))];
        }
      }
    }

    /** The `localVideoTrack?.let { ... }` block of `toggleCamera`. */
    method SwitchLocalCamera()
      modifies this`localVideoTrack, this`isCameraOn, this`log
      ensures old(localVideoTrack).None? ==>
                localVideoTrack == None && isCameraOn == old(isCameraOn) && log == old(log)
      ensures old(localVideoTrack).Some? ==>
                var t := old(localVideoTrack).value;
                && localVideoTrack == Some(t.(enabled := !t.enabled))
                && isCameraOn == !t.enabled
                && log == old(log) + (if roomConnected then [UpdateTrackMetadata(t.id, ActiveWithType(!t.enabled, "camera"))] else [])
    {
      if localVideoTrack.Some? {
        var t := localVideoTrack.value;
        var enabled := !t.enabled;
        localVideoTrack := Some(t.(enabled := enabled));
        isCameraOn := enabled;
        if roomConnected {
          log := log + [UpdateTrackMetadata(t.id, ActiveWithType(enabled, "camera"))];
        }
      }
    }

    /** `toggleMicrophone`: flips the local audio track, tells the engine,
        and mirrors the microphone state into the local participant's
        metadata for its audio track. */
    method ToggleMicrophone()
      requires Valid()
      modifies this`localAudioTrack, this`isMicrophoneOn, this`log
      modifies this`registry, this`order, this`primary, this`participants
      ensures Valid()
      ensures old(localAudioTrack).None? ==>
                localAudioTrack == None && isMicrophoneOn == old(isMicrophoneOn) && log == old(log)
      ensures old(localAudioTrack).Some? ==>
                var t := old(localAudioTrack).value;
                && localAudioTrack == Some(t.(enabled := !t.enabled))
                && isMicrophoneOn == !t.enabled
                && log == old(log) + (if roomConnected then [UpdateTrackMetadata(t.id, ActiveWithType(!t.enabled, "audio"))] else [])
      ensures order == old(order)
      ensures localPeerId !in old(registry) ==> registry == old(registry)
      ensures localPeerId in old(registry) ==>
                var p := old(registry)[localPeerId];
                registry == old(registry)[localPeerId := WithTrackMetadata(p, p.audioTrack, ActiveFlag(isMicrophoneOn))]
      ensures Emitted(order, registry, primary, participants, old(primary), old(participants))
      ensures KeyedById(old(registry)) ==> KeyedById(registry)
    {
      SwitchLocalAudio();
      MirrorActive(true, isMicrophoneOn);
      EmitParticipants();
    }

    /** `toggleCamera`: the same for the local camera track. */
    method ToggleCamera()
      requires Valid()
      modifies this`localVideoTrack, this`isCameraOn, this`log
      modifies this`registry, this`order, this`primary, this`participants
      ensures Valid()
      ensures old(localVideoTrack).None? ==>
                localVideoTrack == None && isCameraOn == old(isCameraOn) && log == old(log)
      ensures old(localVideoTrack).Some? ==>
                var t := old(localVideoTrack).value;
                && localVideoTrack == Some(t.(enabled := !t.enabled))
                && isCameraOn == !t.enabled
                && log == old(log) + (if roomConnected then [UpdateTrackMetadata(t.id, ActiveWithType(!t.enabled, "camera"))] else [])
      ensures order == old(order)
      ensures localPeerId !in old(registry) ==> registry == old(registry)
      ensures localPeerId in old(registry) ==>
                var p := old(registry)[localPeerId];
                registry == old(registry)[localPeerId := WithTrackMetadata(p, p.videoTrack, ActiveFlag(isCameraOn))]
      ensures Emitted(order, registry, primary, participants, old(primary), old(participants))
      ensures KeyedById(old(registry)) ==> KeyedById(registry)
    {
      SwitchLocalCamera();
      MirrorActive(false, isCameraOn);
      EmitParticipants();
    }

    /** Whether `focusVideo` asks the engine for quality `encoding` of the
        video track `track`, and with which command: only for a track that
        is neither the local camera nor the local screencast and that some
        global id maps to, and then with such a global id. */
    ghost predicate TargetRequest(cmds: seq<Command>, track: Option<TrackId>, encoding: TrackEncoding)
      reads this`roomConnected, this`localVideoTrack, this`localScreencastTrack, this`globalToLocal
    {
      if && roomConnected
         && track != IdOf(localVideoTrack) && track != IdOf(localScreencastTrack)
         && track.Some? && track.value in globalToLocal.Values
      then
        && |cmds| == 1
        && cmds[0].SetTargetTrackEncoding? && cmds[0].encoding == encoding
        && cmds[0].trackId in globalToLocal && globalToLocal[cmds[0].trackId] == track.value
      else
        cmds == []
    }

    /** Asks for quality `encoding` of `track` as `focusVideo` does. */
    method RequestEncoding(track: Option<TrackId>, encoding: TrackEncoding) returns (ghost cmds: seq<Command>)
      modifies this`log
      ensures log == old(log) + cmds
      ensures TargetRequest(cmds, track, encoding)
    {
      cmds := [];
      if IdOf(localVideoTrack) != track && IdOf(localScreencastTrack) != track {
        if track.Some? && track.value in globalToLocal.Values {
          var globalId :| globalId in globalToLocal && globalToLocal[globalId] == track.value;
          if roomConnected {
            log := log + [SetTargetTrackEncoding(globalId, encoding)];
            cmds := [SetTargetTrackEncoding(globalId, encoding)];
          }
        }
      }
    }

    /** The `let` block of `focusVideo`: publishes `focused` as the primary
        and `rest` as the others, asking for the low quality of the old
        primary's video and the high quality of the new one's. */
    method Refocus(focused: Participant, rest: seq<Participant>)
      modifies this`primary, this`participants, this`log
      ensures primary == Some(focused) && participants == rest
      ensures exists lowered: seq<Command>, raised: seq<Command> ::
                && log == old(log) + lowered + raised
                && TargetRequest(lowered, if old(primary).Some? then old(primary).value.videoTrack else None, L)
                && TargetRequest(raised, focused.videoTrack, H)
    {
      var previousTrack := if primary.Some? then primary.value.videoTrack else None;
      ghost var log0 := log;
      var lowered := RequestEncoding(previousTrack, L);
      primary := Some(focused);
      var raised := RequestEncoding(focused.videoTrack, H);
      participants := rest;
      assert log == log0 + lowered + raised;
      assert TargetRequest(lowered, previousTrack, L) && TargetRequest(raised, focused.videoTrack, H);
    }

    /** `focusVideo`: makes the first participant whose id is
        `participantId` the primary and every participant with another id
        the rest; asks for the low quality of the old primary's video and
        the high quality of the new one's. */
    method FocusVideo(participantId: string)
      requires Valid()
      modifies this`primary, this`participants, this`log
      ensures Valid()
      ensures FindById(Values(), participantId).None? ==> unchanged(this`primary, this`participants, this`log)
      ensures FindById(Values(), participantId).Some? ==>
                var focused := FindById(Values(), participantId).value;
                && primary == Some(focused)
                && participants == WithoutId(Values(), focused.id)
                && exists lowered: seq<Command>, raised: seq<Command> ::
                     && log == old(log) + lowered + raised
                     && TargetRequest(lowered, if old(primary).Some? then old(primary).value.videoTrack else None, L)
                     && TargetRequest(raised, focused.videoTrack, H)
    {
      var candidates := Values();
      var found := FindById(candidates, participantId);
      if found.Some? {
        Refocus(found.value, WithoutId(candidates, found.value.id));
      }
    }

    // ---------------------------------------------------------------
    // Screencast

    /** The part of `startScreencast` before the roster changes: marks the
        screencast on, draws the id `freshId` and asks the engine for the
        track, whose answer is `created` (no track without a session). */
    method OpenScreencast(freshId: string, created: Option<LocalTrack>)
      requires Valid()
      modifies this`isScreenCastOn, this`localScreencastId, this`localScreencastTrack, this`log
      ensures Valid()
      ensures isScreenCastOn && localScreencastId == Some(freshId)
      ensures localScreencastTrack == (if roomConnected then created else None)
      ensures log == old(log) + (if roomConnected then [CreateScreencastTrack(screencastSimulcastConfig, ScreencastMetadata(localDisplayName))] else [])
    {
      isScreenCastOn := true;
      localScreencastId := Some(freshId);
      if roomConnected {
        log := log + [CreateScreencastTrack(screencastSimulcastConfig, ScreencastMetadata(localDisplayName))];
        localScreencastTrack := created;
      } else {
        localScreencastTrack := None;
      }
    }

    /** `startScreencast`: a no-op while a screencast track exists.
        Otherwise opens the screencast and, when the engine gave a track,
        registers "Me (screen cast)" with it under the drawn id. */
    method StartScreencast(freshId: string, created: Option<LocalTrack>)
      requires Valid()
      modifies this`isScreenCastOn, this`localScreencastId, this`localScreencastTrack, this`log
      modifies this`registry, this`order, this`primary, this`participants
      ensures Valid()
      ensures old(localScreencastTrack).Some? ==> unchanged(this`isScreenCastOn, this`localScreencastId, this`localScreencastTrack, this`log, this`registry, this`order, this`primary, this`participants)
      ensures old(localScreencastTrack).None? ==>
                && isScreenCastOn && localScreencastId == Some(freshId)
                && localScreencastTrack == (if roomConnected then created else None)
                && log == old(log) + (if roomConnected then [CreateScreencastTrack(screencastSimulcastConfig, ScreencastMetadata(localDisplayName))] else [])
      ensures old(localScreencastTrack).None? && localScreencastTrack.Some? ==>
                && registry == old(registry)[freshId :=
                     NewParticipant(freshId, "Me (screen cast)").(videoTrack := Some(localScreencastTrack.value.id))]
                && (freshId in old(registry) ==> order == old(order))
                && Emitted(order, registry, primary, participants, old(primary), old(participants))
      ensures localScreencastTrack.None? ==>
                registry == old(registry) && order == old(order) && primary == old(primary) && participants == old(participants)
      ensures KeyedById(old(registry)) ==> KeyedById(registry)
    {
      if localScreencastTrack.Some? {
        return;
      }
      OpenScreencast(freshId, created);
      if localScreencastTrack.Some? {
        PutAndEmit(freshId, NewParticipant(freshId, "Me (screen cast)").(videoTrack := Some(localScreencastTrack.value.id)));
      }
    }

    /** The `localScreencastTrack?.let { ... }` block of `stopScreencast`:
        asks the engine to remove the track, drops the entry registered
        under the screencast's id and forgets the track. */
    method CloseScreencast()
      requires Valid() && localScreencastTrack.Some?
      modifies this`localScreencastTrack, this`log
      modifies this`registry, this`order, this`primary, this`participants
      ensures Valid()
      ensures localScreencastTrack == None
      ensures log == old(log) + (if roomConnected then [RemoveTrack(old(localScreencastTrack).value.id)] else [])
      ensures registry == old(registry) - {localScreencastId.value}
      ensures order == Without(old(order), localScreencastId.value)
      ensures Emitted(order, registry, primary, participants, old(primary), old(participants))
    {
      if roomConnected {
        log := log + [RemoveTrack(localScreencastTrack.value.id)];
      }
      if localScreencastId.Some? {
        RemoveAndEmit(localScreencastId.value);
      }
      localScreencastTrack := None;
    }

    /** `stopScreencast`: marks the screencast off and, when a screencast
        track exists, closes it. */
    method StopScreencast()
      requires Valid()
      modifies this`isScreenCastOn, this`localScreencastTrack, this`log
      modifies this`registry, this`order, this`primary, this`participants
      ensures Valid()
      ensures !isScreenCastOn && localScreencastTrack == None
      ensures old(localScreencastTrack).None? ==>
                unchanged(this`registry, this`order, this`primary, this`participants, this`log)
      ensures old(localScreencastTrack).Some? ==>
                && log == old(log) + (if roomConnected then [RemoveTrack(old(localScreencastTrack).value.id)] else [])
                && registry == old(registry) - {localScreencastId.value}
                && order == Without(old(order), localScreencastId.value)
                && Emitted(order, registry, primary, participants, old(primary), old(participants))
      ensures KeyedById(old(registry)) ==> KeyedById(registry)
    {
      isScreenCastOn := false;
      if localScreencastTrack.Some? {
        CloseScreencast();
      }
    }

    // ---------------------------------------------------------------
    // Simulcast

    /** The configuration of the given local video track. */
    function ConfigOf(source: VideoSource): SimulcastConfig
      reads this`videoSimulcastConfig, this`screencastSimulcastConfig
    {
      match source
      case Camera => videoSimulcastConfig
      case Screencast => screencastSimulcastConfig
    }

    /** `toggleTrackEncoding`: tells the engine to disable an active
        encoding or enable an inactive one, then publishes the toggled
        configuration. */
    method ToggleTrackEncoding(source: VideoSource, trackId: TrackId, encoding: TrackEncoding)
      modifies this`videoSimulcastConfig, this`screencastSimulcastConfig, this`log
      ensures ConfigOf(source) == Toggle(old(ConfigOf(source)), encoding)
      ensures source == Camera ==> screencastSimulcastConfig == old(screencastSimulcastConfig)
      ensures source == Screencast ==> videoSimulcastConfig == old(videoSimulcastConfig)
      ensures log == old(log) + (
                if !roomConnected then []
                else if encoding in old(ConfigOf(source)).activeEncodings then [DisableTrackEncoding(trackId, encoding)]
                else [EnableTrackEncoding(trackId, encoding)])
    {
      var config := ConfigOf(source);
      if encoding in config.activeEncodings {
        if roomConnected {
          log := log + [DisableTrackEncoding(trackId, encoding)];
        }
      } else {
        if roomConnected {
          log := log + [EnableTrackEncoding(trackId, encoding)];
        }
      }
      match source
      case Camera => videoSimulcastConfig := Toggle(config, encoding);
      case Screencast => screencastSimulcastConfig := Toggle(config, encoding);
    }

    /** `toggleVideoTrackEncoding`: only when a camera track exists. */
    method ToggleVideoTrackEncoding(encoding: TrackEncoding)
      modifies this`videoSimulcastConfig, this`screencastSimulcastConfig, this`log
      ensures screencastSimulcastConfig == old(screencastSimulcastConfig)
      ensures localVideoTrack.None? ==> videoSimulcastConfig == old(videoSimulcastConfig) && log == old(log)
      ensures localVideoTrack.Some? ==>
                && videoSimulcastConfig == Toggle(old(videoSimulcastConfig), encoding)
                && log == old(log) + (
                     if !roomConnected then []
                     else if encoding in old(videoSimulcastConfig).activeEncodings then [DisableTrackEncoding(localVideoTrack.value.id, encoding)]
                     else [EnableTrackEncoding(localVideoTrack.value.id, encoding)])
    {
      if localVideoTrack.Some? {
        ToggleTrackEncoding(Camera, localVideoTrack.value.id, encoding);
      }
    }

    /** `toggleScreencastTrackEncoding`: only when a screencast track exists. */
    method ToggleScreencastTrackEncoding(encoding: TrackEncoding)
      modifies this`videoSimulcastConfig, this`screencastSimulcastConfig, this`log
      ensures videoSimulcastConfig == old(videoSimulcastConfig)
      ensures localScreencastTrack.None? ==> screencastSimulcastConfig == old(screencastSimulcastConfig) && log == old(log)
      ensures localScreencastTrack.Some? ==>
                && screencastSimulcastConfig == Toggle(old(screencastSimulcastConfig), encoding)
                && log == old(log) + (
                     if !roomConnected then []
                     else if encoding in old(screencastSimulcastConfig).activeEncodings then [DisableTrackEncoding(localScreencastTrack.value.id, encoding)]
                     else [EnableTrackEncoding(localScreencastTrack.value.id, encoding)])
    {
      if localScreencastTrack.Some? {
        ToggleTrackEncoding(Screencast, localScreencastTrack.value.id, encoding);
      }
    }
  }
}
