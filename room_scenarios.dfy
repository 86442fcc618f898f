/** Short event sequences on a `RoomViewModel`, each stating the state the
    handlers leave behind when run one after another. */
module RoomScenarios {
  import opened Common
  import opened Roster
  import opened Room

  /** Toggling the microphone twice restores the track and the flag and
      sends two metadata updates with opposite `active` values, the
      negated one first. */
  method MicrophoneToggledTwice(vm: RoomViewModel)
    requires vm.Valid()
    requires vm.localAudioTrack.Some? && vm.isMicrophoneOn == vm.localAudioTrack.value.enabled
    modifies vm
    ensures vm.Valid()
    ensures vm.localAudioTrack == old(vm.localAudioTrack)
    ensures vm.isMicrophoneOn == old(vm.isMicrophoneOn)
    ensures var t := old(vm.localAudioTrack).value;
            vm.log == old(vm.log) + (
              if vm.roomConnected then
                [UpdateTrackMetadata(t.id, ActiveWithType(!t.enabled, "audio")),
                 UpdateTrackMetadata(t.id, ActiveWithType(t.enabled, "audio"))]
              else [])
  {
    ghost var t := vm.localAudioTrack.value;
    ghost var log0 := vm.log;
    vm.ToggleMicrophone();
    ghost var log1 := vm.log;
    vm.ToggleMicrophone();
    assert vm.log == log1 + (if vm.roomConnected then [UpdateTrackMetadata(t.id, ActiveWithType(t.enabled, "audio"))] else []);
  }

  /** A peer joins an empty room, publishes a camera track under the global
      id "g1" and removes it again: the peer ends up the primary with an
      empty video slot, and "g1" is no longer mapped. */
  method CameraTrackLifecycle(vm: RoomViewModel, alice: Peer, localId: TrackId)
    requires vm.Valid() && vm.registry == map[]
    requires alice.id == "p1" && DisplayNameOf(alice) == "Alice"
    modifies vm
    ensures vm.Valid()
    ensures vm.registry.Keys == {"p1"}
    ensures vm.registry["p1"].displayName == "Alice"
    ensures vm.registry["p1"].videoTrack == None && vm.registry["p1"].audioTrack == None
    ensures "g1" !in vm.globalToLocal
    ensures vm.primary == Some(vm.registry["p1"]) && vm.participants == []
  {
    vm.OnPeerJoined(alice);
    var camera := map["type" := MStr("camera")];
    var ctx := TrackContext(alice, "g1", RemoteVideoTrack(localId), camera);
    assert !HasType(camera, "screensharing");
    var ready := vm.OnTrackReady(ctx);
    assert vm.globalToLocal["g1"] == localId && vm.registry["p1"].videoTrack == Some(localId);
    var removed := vm.OnTrackRemoved(ctx);
    EnumerationSize(vm.order, vm.registry.Keys);
  }

  /** A screensharing track "g2" of a registered peer adds an entry of its
      own next to the sharer's, and removing the track drops exactly that
      entry again. */
  method ScreenshareLifecycle(vm: RoomViewModel, sharer: Peer, localId: TrackId)
    requires vm.Valid()
    requires sharer.id in vm.registry && sharer.id != "g2"
    modifies vm
    ensures vm.Valid()
    ensures vm.registry == old(vm.registry) - {"g2"}
    ensures "g2" !in vm.globalToLocal
  {
    var screen := map["type" := MStr("screensharing")];
    var ctx := TrackContext(sharer, "g2", RemoteVideoTrack(localId), screen);
    var ready := vm.OnTrackReady(ctx);
    assert "g2" in vm.registry && vm.registry[sharer.id] == old(vm.registry)[sharer.id];
    assert vm.registry["g2"].displayName == old(vm.registry)[sharer.id].displayName + " (screencast)";
    var removed := vm.OnTrackRemoved(ctx);
  }

  /** As written, a track update sent by a remote peer replaces that peer's
      entry with a copy of the local participant's record: the entry keeps
      the peer's key but carries the local id, name and tracks. */
  method RemoteTrackUpdateCopiesLocalRecord(vm: RoomViewModel, ctx: TrackContext)
    requires vm.Valid()
    requires vm.localPeerId in vm.registry && ctx.peer.id in vm.registry
    modifies vm
    ensures vm.Valid()
    ensures var me := old(vm.registry)[vm.localPeerId];
            && ctx.peer.id in vm.registry
            && vm.registry[ctx.peer.id].id == me.id
            && vm.registry[ctx.peer.id].displayName == me.displayName
            && vm.registry[ctx.peer.id].videoTrack == me.videoTrack
            && vm.registry[ctx.peer.id].audioTrack == me.audioTrack
  {
    vm.OnTrackUpdated(ctx);
  }

  /** The intended handler keeps the sending peer's identity and tracks and
      records the metadata under that peer's own track. */
  method RemoteTrackUpdateKeepsPeer(vm: RoomViewModel, ctx: TrackContext)
    requires vm.Valid()
    requires ctx.peer.id in vm.registry
    modifies vm
    ensures vm.Valid()
    ensures var p := old(vm.registry)[ctx.peer.id];
            var track := if HasType(ctx.metadata, "camera") then p.videoTrack else p.audioTrack;
            && ctx.peer.id in vm.registry
            && vm.registry[ctx.peer.id].id == p.id
            && vm.registry[ctx.peer.id].displayName == p.displayName
            && vm.registry[ctx.peer.id].videoTrack == p.videoTrack
            && vm.registry[ctx.peer.id].audioTrack == p.audioTrack
            && (track.Some? ==> forall k :: k in ctx.metadata ==>
                  && track.value in vm.registry[ctx.peer.id].tracksMetadata
                  && k in vm.registry[ctx.peer.id].tracksMetadata[track.value]
                  && vm.registry[ctx.peer.id].tracksMetadata[track.value][k] == ctx.metadata[k])
    ensures forall k :: k in old(vm.registry) && k != ctx.peer.id ==> k in vm.registry && vm.registry[k] == old(vm.registry)[k]
  {
    vm.OnTrackUpdatedIntended(ctx);
  }

  /** As written, a remote peer's track update can list the primary among
      the others: with the local participant (without an audio track) and
      the peer "p1" registered, an update of "p1" with an empty bag stores
      an exact copy of the local record under "p1", so both keys hold the
      same participant and the snapshot shows it twice. */
  method RemoteTrackUpdateRepeatsPrimary(vm: RoomViewModel, ctx: TrackContext)
    requires vm.Valid()
    requires vm.registry.Keys == {vm.localPeerId, "p1"} && vm.localPeerId != "p1"
    requires vm.registry[vm.localPeerId].audioTrack == None
    requires ctx.peer.id == "p1" && ctx.metadata == map[]
    modifies vm
    ensures vm.Valid()
    ensures !KeyedById(vm.registry)
    ensures vm.primary.Some? && vm.primary.value in vm.participants
  {
    ghost var me := vm.registry[vm.localPeerId];
    vm.OnTrackUpdated(ctx);
    assert vm.registry["p1"] == me && vm.registry[vm.localPeerId] == me;
    SnapshotSplitsRegistry(vm.order, vm.registry);
    ghost var other := if vm.order[0] == "p1" then vm.localPeerId else "p1";
    assert vm.registry[other] in ValuesOf(vm.order, vm.registry)[1..];
  }

  /** With the intended handler every entry stays keyed by its own id, so
      the snapshot still never lists the primary among the others. */
  method RemoteTrackUpdateKeepsPrimaryOut(vm: RoomViewModel, ctx: TrackContext)
    requires vm.Valid() && KeyedById(vm.registry) && vm.registry != map[]
    modifies vm
    ensures vm.Valid() && KeyedById(vm.registry)
    ensures vm.primary.Some? && vm.primary.value !in vm.participants
  {
    vm.OnTrackUpdatedIntended(ctx);
    vm.PrimaryNotInParticipants(old(vm.primary), old(vm.participants));
  }
}
