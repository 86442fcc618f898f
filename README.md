# Membrane video room demo: room view model and voice-activity monitor

This project models two parts of the Membrane WebRTC Android demo in Dafny and proves properties of the models.

**`RoomViewModel` (the demo app).** The model is the class `Room.RoomViewModel`. It keeps:

- the participant roster (`mutableParticipants`, a HashMap) and its iteration order;
- the published snapshot: a primary participant and the list of the others;
- the microphone, camera and screen-share flags;
- the table from transport-global to session-local track ids;
- the simulcast configurations of the camera and screencast tracks;
- every command sent to the RTC engine, as an append-only log.

Each engine callback and each user action is a method. Its contract states the new roster, its iteration order, the snapshot, the id table and the command log in terms of the old ones. Every roster-changing method keeps the invariant `Valid()`: `order` lists each registry key exactly once, and a screencast track is held only together with the id it was registered under. Every handler except `onTrackUpdated` also keeps `KeyedById`: each entry is stored under its own id. The snapshot a handler leaves is `Emitted`:

- for an empty registry, the snapshot is untouched;
- otherwise the first value in iteration order is the primary and the other values are the rest.

Lemmas in `Roster` show what the snapshot is. The primary is one registry entry. The rest has one element fewer than the registry, holds every other entry, and holds nothing else. While the entries are keyed by their ids, no one in the rest shares the primary's id.

**`SoundVolumeMonitor` (the RTC library).** The model is the module `SoundVolume`:

- the loudest-sample scan of a PCM buffer, a loop proved against `MaxAbs`;
- the silence branch of the decibel conversion;
- the speech/silence threshold;
- the `isRecording` guard of `start` and `stop`, the exceptions `start` lets escape, and the timer task, as a small class.

Callbacks run one at a time and each runs to completion, which is how the coroutines of the view model are treated. A Kotlin `HashMap`'s iteration order is kept abstract:

- overwriting a key keeps the order;
- removing a key keeps the order of the others;
- inserting a new key may produce any order of the keys.

`globalToLocalTrackId.filterValues { … }.keys.first()` may return any global id that maps to the local id.

Three consequences of the code are worth stating plainly:

- Focusing the participant who is already primary still asks for its low quality and then its high quality.
- `onPeerLeft` leaves the track id table alone.
- With a single registry entry, that entry is the primary and the published list of other participants is empty (`values.drop(1)`).

`Participant.updateTrackMetadata` lives in a file that is not part of this model. It is taken to merge the given bag into the bag kept for the track id, key by key, and to do nothing for a null id. A new `Participant` is taken to start with `vadStatus` silence and no track metadata. `SimulcastConfig(enabled = false)` is taken to have no active encodings.

## Model

| member | source | states |
|---|---|---|
| `Common.Get` | app/src/main/java/com/dscout/membranevideoroomdemo/viewmodels/RoomViewModel.kt:338 | A Kotlin map lookup is null exactly when the key is absent, and otherwise is the stored value |
| `Common.Without` | app/src/main/java/com/dscout/membranevideoroomdemo/viewmodels/RoomViewModel.kt:468 | `filter { it != e }` keeps exactly the other elements. It never grows the list, keeps a list duplicate-free, and shrinks a duplicate-free list holding `e` by one |
| `Common.WithoutAbsent` | app/src/main/java/com/dscout/membranevideoroomdemo/viewmodels/RoomViewModel.kt:468 | Filtering out an element that does not occur returns the list unchanged |
| `Common.WithoutDistributes` | app/src/main/java/com/dscout/membranevideoroomdemo/viewmodels/RoomViewModel.kt:468 | Filtering distributes over list concatenation |
| `Common.WithoutAppended` | app/src/main/java/com/dscout/membranevideoroomdemo/viewmodels/RoomViewModel.kt:468-472 | Filtering out an encoding just appended by `plus` gives back the original list when the encoding was absent |
| `Simulcast.Toggle` | app/src/main/java/com/dscout/membranevideoroomdemo/viewmodels/RoomViewModel.kt:464-473 | The toggled config is enabled, and an encoding is active afterwards exactly when it is active before XOR it is the toggled one. An inactive encoding is appended after the old list. No duplicates are introduced |
| `Simulcast.ToggleTwice` | app/src/main/java/com/dscout/membranevideoroomdemo/viewmodels/RoomViewModel.kt:464-473 | Toggling the same encoding twice restores the set of active encodings. When the encoding was inactive, it restores the very list |
| `Roster.NewParticipant` | app/src/main/java/com/dscout/membranevideoroomdemo/viewmodels/RoomViewModel.kt:386-389 | A joined peer's entry has the peer's id and name, no video or audio track and no track metadata |
| `Roster.HasType` | app/src/main/java/com/dscout/membranevideoroomdemo/viewmodels/RoomViewModel.kt:264 | `metadata["type"] == tag` holds exactly when the map lookup of "type", null for a missing key, is the string `tag` |
| `Roster.DisplayNameOf` | app/src/main/java/com/dscout/membranevideoroomdemo/viewmodels/RoomViewModel.kt:388 | The name is the peer's `displayName` metadata when that is a string, and "UNKNOWN" otherwise |
| `Roster.IdOf` | app/src/main/java/com/dscout/membranevideoroomdemo/viewmodels/RoomViewModel.kt:102-104 | `track?.id()` is null exactly for a null handle, and otherwise is the handle's id |
| `Roster.ActiveFlag` | app/src/main/java/com/dscout/membranevideoroomdemo/viewmodels/RoomViewModel.kt:153-156 | The bag `{"active": on}` mirrored into the local participant's record; its keys and value are stated by `Roster.SwitchBags` |
| `Roster.ActiveWithType` | app/src/main/java/com/dscout/membranevideoroomdemo/viewmodels/RoomViewModel.kt:148 | The bag `{"active": on, "type": tag}` sent to the engine when a local track is switched; its contents are stated by `Roster.SwitchBags` |
| `Roster.SwitchBags` | app/src/main/java/com/dscout/membranevideoroomdemo/viewmodels/RoomViewModel.kt:148-156 | The mirrored bag holds only `active` with the new state and no type. The bag sent to the engine holds `active` with the new state and a type that is exactly the given one |
| `Roster.Merge` | app/src/main/java/com/dscout/membranevideoroomdemo/viewmodels/RoomViewModel.kt:153-156 | The merged bag has the keys of both bags. The update's values win on shared keys, and the base's values survive elsewhere |
| `Roster.WithTrackMetadata` | app/src/main/java/com/dscout/membranevideoroomdemo/viewmodels/RoomViewModel.kt:153-156 | The participant's id, name, tracks and voice status are kept. A null track id changes nothing. Otherwise the track's bag gains every key of the update with the update's value, keeps its other keys, and every other track's bag is untouched |
| `Roster.LocalParticipant` | app/src/main/java/com/dscout/membranevideoroomdemo/viewmodels/RoomViewModel.kt:223-231 | The local participant is "Me" under the local peer id, holding both local tracks. Exactly the two track ids carry a bag, each marked `active` with its track's enabled flag; the camera's mark wins when the ids coincide |
| `Roster.EnumerationMembers` | app/src/main/java/com/dscout/membranevideoroomdemo/viewmodels/RoomViewModel.kt:33 | An iteration order of the HashMap holds exactly its keys, each once |
| `Roster.MembersEnumeration` | app/src/main/java/com/dscout/membranevideoroomdemo/viewmodels/RoomViewModel.kt:33 | Conversely, any duplicate-free list of exactly the keys is a possible iteration order |
| `Roster.EnumerationSize` | app/src/main/java/com/dscout/membranevideoroomdemo/viewmodels/RoomViewModel.kt:33 | An iteration order is as long as the map has keys |
| `Roster.EnumerationAppend` | app/src/main/java/com/dscout/membranevideoroomdemo/viewmodels/RoomViewModel.kt:307 | After a new key is put, some iteration order exists: the old order followed by the key |
| `Roster.EnumerationWithout` | app/src/main/java/com/dscout/membranevideoroomdemo/viewmodels/RoomViewModel.kt:396 | After a key is removed, the old order without that key is an iteration order of the remaining keys |
| `Roster.ValuesOf` | app/src/main/java/com/dscout/membranevideoroomdemo/viewmodels/RoomViewModel.kt:130 | `values` has one entry per key of the iteration order |
| `Roster.ValuesOfAt` | app/src/main/java/com/dscout/membranevideoroomdemo/viewmodels/RoomViewModel.kt:130 | Position i of `values` holds the entry of the i-th key |
| `Roster.SnapshotSplitsRegistry` | app/src/main/java/com/dscout/membranevideoroomdemo/viewmodels/RoomViewModel.kt:129-140 | For a non-empty registry, `first()` is the entry of the first key. `drop(1)` has one element fewer than the registry, holds every entry of every other key, and holds only such entries |
| `Roster.PrimaryNotInRest` | app/src/main/java/com/dscout/membranevideoroomdemo/viewmodels/RoomViewModel.kt:133-138 | When every entry is stored under its own id, no participant in `drop(1)` has the id of `first()`, so the primary does not reappear among the others |
| `Roster.FindById` | app/src/main/java/com/dscout/membranevideoroomdemo/viewmodels/RoomViewModel.kt:97-100 | `find` gives null exactly when no value has the id. Otherwise it gives a value with that id, and no earlier value has that id |
| `Roster.WithoutId` | app/src/main/java/com/dscout/membranevideoroomdemo/viewmodels/RoomViewModel.kt:122-124 | `filter { it.id != id }` keeps exactly the values with another id, and never more values |
| `Roster.AddPeers` | app/src/main/java/com/dscout/membranevideoroomdemo/viewmodels/RoomViewModel.kt:240-247 | The registry after the `forEach` puts a track-less entry for each peer in turn. Entries stored under their own ids stay so, because each new entry is stored under its peer's id |
| `Roster.AddPeersKeys` | app/src/main/java/com/dscout/membranevideoroomdemo/viewmodels/RoomViewModel.kt:240-247 | Joining adds exactly the listed peers' ids to the registry's keys |
| `Roster.AddPeersKeepsOthers` | app/src/main/java/com/dscout/membranevideoroomdemo/viewmodels/RoomViewModel.kt:240-247 | Joining keeps every entry whose key is no listed peer's id |
| `Roster.AddPeersLastWins` | app/src/main/java/com/dscout/membranevideoroomdemo/viewmodels/RoomViewModel.kt:240-247 | Each listed id ends up with a track-less entry named after the last peer listed under it, overwriting any earlier entry |
| `Room.UserId` | app/src/main/java/com/dscout/membranevideoroomdemo/viewmodels/RoomViewModel.kt:190 | The `user_id` value is the display name, or "" before a name is known |
| `Room.CreationMetadata` | app/src/main/java/com/dscout/membranevideoroomdemo/viewmodels/RoomViewModel.kt:188-193 | The bag a local audio or camera track is created with; its contents are stated by `Room.CreationBags` |
| `Room.ScreencastMetadata` | app/src/main/java/com/dscout/membranevideoroomdemo/viewmodels/RoomViewModel.kt:428-431 | The bag the screencast track is created with; its contents are stated by `Room.CreationBags` |
| `Room.CreationBags` | app/src/main/java/com/dscout/membranevideoroomdemo/viewmodels/RoomViewModel.kt:188-216 | The audio and camera bags hold the user id, `active` set to true and exactly the given type. The screencast bag holds the type "screensharing" and the user id |
| `Room.LocalTrackCommands` | app/src/main/java/com/dscout/membranevideoroomdemo/viewmodels/RoomViewModel.kt:187-219 | The commands `onConnected` sends with a session: create the audio track, create the camera track with the camera simulcast config, join |
| `Room.RoomViewModel.constructor` | app/src/main/java/com/dscout/membranevideoroomdemo/viewmodels/RoomViewModel.kt:24-62 | The initial state: no tracks, no session, an empty roster and snapshot (so trivially keyed by id), all flags off, the camera config L, M, H enabled, and the screencast config disabled |
| `Room.RoomViewModel.Values` | app/src/main/java/com/dscout/membranevideoroomdemo/viewmodels/RoomViewModel.kt:130 | `mutableParticipants.values` has as many values as the registry has keys |
| `Room.RoomViewModel.PrimaryNotInParticipants` | app/src/main/java/com/dscout/membranevideoroomdemo/viewmodels/RoomViewModel.kt:129-140 | After an emit from a non-empty registry whose entries are stored under their own ids, the primary exists, is not among the others, and no one among the others shares its id |
| `Room.RoomViewModel.Put` | app/src/main/java/com/dscout/membranevideoroomdemo/viewmodels/RoomViewModel.kt:307 | The registry maps the key to the new record and keeps the invariant. Overwriting an existing key keeps the iteration order |
| `Room.RoomViewModel.Remove` | app/src/main/java/com/dscout/membranevideoroomdemo/viewmodels/RoomViewModel.kt:396 | The key is gone and the other keys keep their order |
| `Room.RoomViewModel.EmitParticipants` | app/src/main/java/com/dscout/membranevideoroomdemo/viewmodels/RoomViewModel.kt:129-140 | An empty registry leaves the snapshot as it was. Otherwise the first value is the primary and the other values, in order, are the rest |
| `Room.RoomViewModel.PutAndEmit` | app/src/main/java/com/dscout/membranevideoroomdemo/viewmodels/RoomViewModel.kt:307-309 | The entry is stored, overwriting an existing key keeps the order, and the snapshot is republished from the new registry |
| `Room.RoomViewModel.RemoveAndEmit` | app/src/main/java/com/dscout/membranevideoroomdemo/viewmodels/RoomViewModel.kt:395-398 | The entry is dropped, the other keys keep their order, and the snapshot is republished from the new registry |
| `Room.RoomViewModel.Connect` | app/src/main/java/com/dscout/membranevideoroomdemo/viewmodels/RoomViewModel.kt:64-88 | The display name is recorded. An existing session is disconnected first, then a new session is opened |
| `Room.RoomViewModel.Disconnect` | app/src/main/java/com/dscout/membranevideoroomdemo/viewmodels/RoomViewModel.kt:90-94 | An existing session is disconnected and the session is gone |
| `Room.RoomViewModel.CreateLocalTracks` | app/src/main/java/com/dscout/membranevideoroomdemo/viewmodels/RoomViewModel.kt:187-221 | The audio and camera tracks are created with the user id, `active` and type metadata, the camera with the camera simulcast config. Then the room is joined, and the toggles take the tracks' states |
| `Room.RoomViewModel.SetUpLocalParticipant` | app/src/main/java/com/dscout/membranevideoroomdemo/viewmodels/RoomViewModel.kt:187-233 | The tracks are created and the room joined as above, then the local participant is registered (keeping the order when it was already registered) and the snapshot republished |
| `Room.RoomViewModel.OnConnected` | app/src/main/java/com/dscout/membranevideoroomdemo/viewmodels/RoomViewModel.kt:186-235 | Without a session nothing changes. With one, the two tracks are created, the room joined, the toggles set from the tracks, "Me" registered under the local peer id, and the snapshot republished. Entries stay keyed by their ids |
| `Room.RoomViewModel.OnJoinSuccess` | app/src/main/java/com/dscout/membranevideoroomdemo/viewmodels/RoomViewModel.kt:237-250 | The registry becomes the old one with a track-less entry put for each listed peer in turn, and the snapshot is republished. When every listed peer was already registered the order is kept. Entries stay keyed by their ids |
| `Room.RoomViewModel.OnPeerJoined` | app/src/main/java/com/dscout/membranevideoroomdemo/viewmodels/RoomViewModel.kt:385-393 | The peer's entry is overwritten by a track-less one (the order kept when the peer was registered), and the snapshot is republished. Entries stay keyed by their ids |
| `Room.RoomViewModel.OnPeerLeft` | app/src/main/java/com/dscout/membranevideoroomdemo/viewmodels/RoomViewModel.kt:395-400 | Only the peer's entry is removed, the other keys keep their order, and the snapshot is republished. The id table is untouched (it is outside the frame). Entries stay keyed by their ids |
| `Room.RoomViewModel.OnTrackReady` | app/src/main/java/com/dscout/membranevideoroomdemo/viewmodels/RoomViewModel.kt:256-309 | Unregistered peer: nothing changes. Unsupported track: an error and no change. Screensharing video: the entry under the global id is created or overwritten with the sharer's record renamed with " (screencast)", its id the global id and its video the local id; the sharer's own entry survives unless its id is the global id. Other video or audio: the peer's slot is set, the event's bag is stored under the local id, and the order is kept. In the last two cases the global id is mapped to the local id. Entries stay keyed by their ids |
| `Room.RoomViewModel.OnVoiceActivityChanged` | app/src/main/java/com/dscout/membranevideoroomdemo/viewmodels/RoomViewModel.kt:311-317 | A registered peer's voice status is replaced, nothing else about it changes, and the order is kept. An unregistered peer changes nothing. Entries stay keyed by their ids |
| `Room.RoomViewModel.OnTrackRemoved` | app/src/main/java/com/dscout/membranevideoroomdemo/viewmodels/RoomViewModel.kt:327-362 | Screensharing: exactly the entry and the mapping under the global id are removed, the other keys keeping their order. Otherwise, for a registered peer: a mapped id equal to the video slot clears it (checked first, and null equals null); one equal to the audio slot clears that; in both cases the mapping is dropped and the order kept. Any other id is an error with no change. Entries stay keyed by their ids |
| `Room.RoomViewModel.OnTrackUpdated` | app/src/main/java/com/dscout/membranevideoroomdemo/viewmodels/RoomViewModel.kt:364-383 | As written: the local participant's record, with the event's bag merged into its camera or audio track, is stored under the event's peer id (the order kept when that peer was registered) |
| `Room.RoomViewModel.OnTrackUpdatedIntended` | app/src/main/java/com/dscout/membranevideoroomdemo/viewmodels/RoomViewModel.kt:364-383 | The sending peer's own record gets the event's bag merged into its camera or audio track, and the order is kept. An unregistered peer is left alone. Entries stay keyed by their ids |
| `Room.RoomViewModel.MirrorActive` | app/src/main/java/com/dscout/membranevideoroomdemo/viewmodels/RoomViewModel.kt:151-157 | The local participant's audio or camera bag gets `active` set to the given state. Without a local participant nothing changes |
| `Room.RoomViewModel.SwitchLocalAudio` | app/src/main/java/com/dscout/membranevideoroomdemo/viewmodels/RoomViewModel.kt:144-149 | Without an audio track nothing changes. With one, its flag flips, the microphone state follows, and one metadata update with the new `active` value and type "audio" is sent |
| `Room.RoomViewModel.SwitchLocalCamera` | app/src/main/java/com/dscout/membranevideoroomdemo/viewmodels/RoomViewModel.kt:163-168 | The same for the camera track and type "camera" |
| `Room.RoomViewModel.ToggleMicrophone` | app/src/main/java/com/dscout/membranevideoroomdemo/viewmodels/RoomViewModel.kt:143-160 | The audio track flips, the engine is told, the microphone state is mirrored into the local participant's audio bag, and the snapshot is republished with the order kept. Entries stay keyed by their ids |
| `Room.RoomViewModel.ToggleCamera` | app/src/main/java/com/dscout/membranevideoroomdemo/viewmodels/RoomViewModel.kt:162-179 | The same for the camera |
| `Room.RoomViewModel.TargetRequest` | app/src/main/java/com/dscout/membranevideoroomdemo/viewmodels/RoomViewModel.kt:102-119 | What `focusVideo` sends for one track: a single target-encoding command naming a global id mapped to the track, only for a remote track with a mapped id while a session exists, and nothing otherwise |
| `Room.RoomViewModel.RequestEncoding` | app/src/main/java/com/dscout/membranevideoroomdemo/viewmodels/RoomViewModel.kt:103-111 | One target-encoding command is sent, naming a global id mapped to the track. It is sent only for a track that is neither the local camera nor the local screencast, that some global id maps to, and while a session exists; otherwise nothing is sent |
| `Room.RoomViewModel.Refocus` | app/src/main/java/com/dscout/membranevideoroomdemo/viewmodels/RoomViewModel.kt:101-124 | The given participant becomes the primary and the given list the rest. The commands sent are a low-quality request for the old primary's video followed by a high-quality request for the new one's |
| `Room.RoomViewModel.FocusVideo` | app/src/main/java/com/dscout/membranevideoroomdemo/viewmodels/RoomViewModel.kt:96-126 | When no value has the id, nothing changes and no command is sent. Otherwise the first such value is the primary and every value with another id is the rest, with the low-quality request for the old primary and then the high-quality request for the new one |
| `Room.RoomViewModel.OpenScreencast` | app/src/main/java/com/dscout/membranevideoroomdemo/viewmodels/RoomViewModel.kt:414-432 | The screencast flag is set and the drawn id recorded. With a session, the track is created with the screencast config and "screensharing" metadata; without one there is no track |
| `Room.RoomViewModel.StartScreencast` | app/src/main/java/com/dscout/membranevideoroomdemo/viewmodels/RoomViewModel.kt:411-442 | A no-op while a screencast track exists. Otherwise the screencast is opened, and when a track results, "Me (screen cast)" holding it is registered under the drawn id (the order kept if that id was registered) and the snapshot republished. Entries stay keyed by their ids |
| `Room.RoomViewModel.CloseScreencast` | app/src/main/java/com/dscout/membranevideoroomdemo/viewmodels/RoomViewModel.kt:447-456 | With a session, the engine is asked to remove the track. The entry under the screencast id is dropped with the other keys keeping their order, the snapshot republished, and the track forgotten |
| `Room.RoomViewModel.StopScreencast` | app/src/main/java/com/dscout/membranevideoroomdemo/viewmodels/RoomViewModel.kt:444-457 | The flag is cleared. Without a screencast track nothing else changes; with one, it is closed as above. Entries stay keyed by their ids |
| `Room.RoomViewModel.ToggleTrackEncoding` | app/src/main/java/com/dscout/membranevideoroomdemo/viewmodels/RoomViewModel.kt:459-474 | The chosen config becomes its toggle and the other config is kept. The engine is told to disable an active encoding or enable an inactive one, while a session exists |
| `Room.RoomViewModel.ToggleVideoTrackEncoding` | app/src/main/java/com/dscout/membranevideoroomdemo/viewmodels/RoomViewModel.kt:476-478 | Toggles the camera config, naming the camera track, only when a camera track exists |
| `Room.RoomViewModel.ToggleScreencastTrackEncoding` | app/src/main/java/com/dscout/membranevideoroomdemo/viewmodels/RoomViewModel.kt:480-482 | Toggles the screencast config, naming the screencast track, only when one exists |
| `RoomScenarios.MicrophoneToggledTwice` | app/src/main/java/com/dscout/membranevideoroomdemo/viewmodels/RoomViewModel.kt:143-160 | Two microphone toggles restore the track and the flag, and send two metadata updates with opposite `active` values, the negated one first |
| `RoomScenarios.CameraTrackLifecycle` | app/src/main/java/com/dscout/membranevideoroomdemo/viewmodels/RoomViewModel.kt:256-358 | A peer joins an empty room, then readies and removes a camera track "g1". The peer ends up the primary, with no video, "g1" is unmapped, and the rest is empty |
| `RoomScenarios.ScreenshareLifecycle` | app/src/main/java/com/dscout/membranevideoroomdemo/viewmodels/RoomViewModel.kt:256-334 | Readying and removing a screensharing track "g2" of a registered peer leaves the registry as before, without any "g2" entry, and "g2" unmapped |
| `RoomScenarios.RemoteTrackUpdateCopiesLocalRecord` | app/src/main/java/com/dscout/membranevideoroomdemo/viewmodels/RoomViewModel.kt:364-378 | After a remote peer's track update, the peer's entry carries the local participant's id, name and tracks |
| `RoomScenarios.RemoteTrackUpdateKeepsPeer` | app/src/main/java/com/dscout/membranevideoroomdemo/viewmodels/RoomViewModel.kt:364-378 | With the intended handler, the peer keeps its id, name and tracks, and its updated track's bag holds the event's values. Every other entry is untouched |
| `RoomScenarios.RemoteTrackUpdateRepeatsPrimary` | app/src/main/java/com/dscout/membranevideoroomdemo/viewmodels/RoomViewModel.kt:365-378 | With only the local participant (no audio track) and "p1" registered, an empty update from "p1" stores an exact copy of the local record under "p1": the entries are no longer keyed by their ids, and the snapshot lists the primary among the others |
| `RoomScenarios.RemoteTrackUpdateKeepsPrimaryOut` | app/src/main/java/com/dscout/membranevideoroomdemo/viewmodels/RoomViewModel.kt:365-378 | With the intended handler, entries stay keyed by their ids and the snapshot never lists the primary among the others |
| `SoundVolume.Abs` | MembraneRTC/src/main/java/org/membraneframework/rtc/media/SoundVolumeMonitor.java:84 | `Math.abs` of a widened sample is the sample or its negation, whichever is not below the other |
| `SoundVolume.MaxAbs` | MembraneRTC/src/main/java/org/membraneframework/rtc/media/SoundVolumeMonitor.java:81-87 | The largest absolute sample is at most 32768 and at least every sample's absolute value. It is attained by some sample, or it is 0 |
| `SoundVolume.SilentIffZero` | MembraneRTC/src/main/java/org/membraneframework/rtc/media/SoundVolumeMonitor.java:81-87 | The maximum amplitude is 0 exactly when every sample is 0 (an empty buffer included) |
| `SoundVolume.GetMaxAmplitude` | MembraneRTC/src/main/java/org/membraneframework/rtc/media/SoundVolumeMonitor.java:81-87 | The scan over the whole buffer, ignoring `bytesRead`, returns a value between 0 and 32768. It is at least every sample's absolute value and equal to one of them unless 0, i.e. the maximum |
| `SoundVolume.MaxAbsZeroPadded` | MembraneRTC/src/main/java/org/membraneframework/rtc/media/SoundVolumeMonitor.java:105-107 | Samples the recorder left as the fresh buffer's zeros do not change the maximum amplitude |
| `SoundVolume.CalculateValue` | MembraneRTC/src/main/java/org/membraneframework/rtc/media/SoundVolumeMonitor.java:89-94 | A non-positive amplitude gives -160. A positive one gives the floating-point branch's value |
| `SoundVolume.DetectSound` | MembraneRTC/src/main/java/org/membraneframework/rtc/media/SoundVolumeMonitor.java:73-79 | Speech exactly when the level is above the threshold, and silence exactly when it is at or below it |
| `SoundVolume.Tick` | MembraneRTC/src/main/java/org/membraneframework/rtc/media/SoundVolumeMonitor.java:104-109 | The status reported for a buffer is the threshold decision on its level. An all-zero buffer reports silence; otherwise speech exactly when the decibel value exceeds -100 |
| `SoundVolume.SilentBufferIsSilence` | MembraneRTC/src/main/java/org/membraneframework/rtc/media/SoundVolumeMonitor.java:89-92 | Under the default threshold of -100, an all-zero buffer is silence whatever the floating-point branch would say |
| `SoundVolume.SoundVolumeMonitor.constructor` | MembraneRTC/src/main/java/org/membraneframework/rtc/media/SoundVolumeMonitor.java:16-19 | A new monitor is not recording and holds no recorder, no timer and no listener |
| `SoundVolume.SoundVolumeMonitor.Start` | MembraneRTC/src/main/java/org/membraneframework/rtc/media/SoundVolumeMonitor.java:29-42 | While recording, nothing changes and nothing is thrown. Otherwise the buffer size is recorded. A size below 1 throws before the recorder is replaced, and nothing starts. Otherwise the recorder is created, and recording and the timer start exactly when it reports initialised. Then a period of at least 1 schedules the task, while a smaller one throws with recording set and no task scheduled |
| `SoundVolume.SoundVolumeMonitor.StartDefault` | MembraneRTC/src/main/java/org/membraneframework/rtc/media/SoundVolumeMonitor.java:25-27 | `start()` is `start` with the period of 1: it throws exactly for a buffer size below 1, and otherwise the task is scheduled exactly when recording starts |
| `SoundVolume.SoundVolumeMonitor.StartTimer` | MembraneRTC/src/main/java/org/membraneframework/rtc/media/SoundVolumeMonitor.java:100-112 | A new timer is held. A period of at least 1 schedules the task with that period; a smaller one throws and schedules nothing |
| `SoundVolume.SoundVolumeMonitor.StopTimer` | MembraneRTC/src/main/java/org/membraneframework/rtc/media/SoundVolumeMonitor.java:114-120 | No timer is held and no task runs |
| `SoundVolume.SoundVolumeMonitor.Stop` | MembraneRTC/src/main/java/org/membraneframework/rtc/media/SoundVolumeMonitor.java:44-59 | While not recording, nothing changes. Otherwise the timer is cancelled, the flag cleared and the recorder dropped, whether or not releasing it fails |
| `SoundVolume.SoundVolumeMonitor.SetSoundVolumeListener` | MembraneRTC/src/main/java/org/membraneframework/rtc/media/SoundVolumeMonitor.java:64-66 | The listener is held exactly when a non-null one is given |
| `SoundVolume.SoundVolumeMonitor.RunTask` | MembraneRTC/src/main/java/org/membraneframework/rtc/media/SoundVolumeMonitor.java:102-110 | One run of the task on a zeroed buffer the recorder partly fills: with a listener, it receives the threshold decision on the level of the recorded samples and the task stays scheduled. Without one, the report throws, the timer's thread ends and the task never runs again, while recording stays set |

## Left out

- Floating point: the `20 * Math.log(...)` branch of `calculateValue` is a parameter (`logValue`). It is not computed.
- Platform I/O: the recorder and the timer are reduced to flags.
  - The recorder's initialisation is a parameter.
  - The buffer the recorder fills is a parameter.
  - The minimum buffer size for the sampling rate is a parameter. The sampling rate itself is therefore not modelled.
  - The periodic scheduling of the timer task is reduced to a flag and `RunTask`, one run of the task. How many runs happen, and when, is not modelled.
- The voice-activity listener is reduced to whether one is held. The status it would receive is the result of `RunTask`.
- The platform is assumed to behave as follows:
  - the `AudioRecord` constructor throws `IllegalArgumentException` for a buffer size below 1, which covers the negative error codes of `getMinBufferSize`;
  - `Timer.scheduleAtFixedRate` throws `IllegalArgumentException` for a period below 1 and schedules nothing;
  - an exception thrown by a `TimerTask` ends the timer's thread.
- The `SecurityException` that `start` declares comes from the platform's permission check. It is not modelled; a recorder the platform refuses appears as `initialised` being false.
- The buffer-size checks of `AudioRecord` beyond "at least 1" (a whole number of frames) are not modelled.
- The argument-less `setSoundVolumeListener()` has an empty body, so it is not modelled.
- `SoundVolume.SoundVolumeMonitor.Stop`: an exception from releasing the recorder is not a separate path, because it ends in the same state.
- `ScreencastServiceConnector.kt` is not part of this model: binding, synchronisation and continuations are concurrency.
- `RTCStats.kt` is not part of this model: it is plain data.
- Engine calls are entries of a command log. The engine's answers are parameters:
  - the local audio and camera tracks `onConnected` receives;
  - the possibly-missing screencast track `startScreencast` receives.
- Track handles are reduced to an id and, for local tracks, an enabled flag. `flipCamera` acts on the handle only, so it is not modelled.
- `VideoParameters`, bandwidth limits, encoder options and the transport (URL, room name, token) are not modelled. The room connection is a flag, and the connect command carries the display name only.
- `onJoinError`, `onTrackAdded`, `onPeerUpdated` and `onError` only log or set the error message, so they are not modelled. The `errorMessage` flow is left out with them.
- Coroutines are not modelled. Every `viewModelScope.launch` block runs at once and to completion.
- Random ids: the local peer id is a constructor argument. The screencast id drawn by `UUID.randomUUID` is an argument of `StartScreencast`.
- `Participant.kt` is not part of this model. Its `updateTrackMetadata` is the merge described above, and its defaults are as stated above.
- `Room.RoomViewModel.FocusVideo`: when several global ids map to the same local track, it does not say which one is named (the first key of a HashMap's key set).
- `Room.RoomViewModel.Put`: inserting a new key allows any iteration order of the resulting keys, which is weaker than a real HashMap's deterministic layout.
- `Room.RoomViewModel.OnPeerLeft`: it does not state that the command log and the flags are unchanged, because they are outside its frame and cannot change.

## Findings

| source | as written | input that shows it | evidently intended | confidence | as-written member | corrected member |
|---|---|---|---|---|---|---|
| app/src/main/java/com/dscout/membranevideoroomdemo/viewmodels/RoomViewModel.kt:365-378 | `onTrackUpdated` reads the local participant's record and stores an updated copy of it under the event's peer id | A metadata update of a remote peer "p1" while both "p1" and the local participant are registered: the "p1" entry becomes a copy of "Me" with the local tracks. With only those two registered and no local audio track, an empty update from "p1" makes both entries the same record, so the published rest repeats the primary | Read `mutableParticipants[ctx.peer.id]` and merge the metadata into that peer's own track | high (not executed) | `Room.RoomViewModel.OnTrackUpdated`, exhibited by `RoomScenarios.RemoteTrackUpdateCopiesLocalRecord` and `RoomScenarios.RemoteTrackUpdateRepeatsPrimary` | `Room.RoomViewModel.OnTrackUpdatedIntended`, proved in `RoomScenarios.RemoteTrackUpdateKeepsPeer`, `RoomScenarios.RemoteTrackUpdateKeepsPrimaryOut` and `Room.RoomViewModel.PrimaryNotInParticipants` |
