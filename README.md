# Conferencing service: a Dafny model

This project models the core of a small Python conferencing system:

- a socket.io server (`conf_server.py`) that keeps a process-wide table of conferences, admits joins up to a capacity, removes leavers and disconnected sockets, answers list requests, relays chat to the whole room, and forwards audio, video and screen packets to the room, skipping only the socket each packet arrived on;
- the client façade (`conf_client.py`): the handlers of server events, and the request methods that emit events and wait a bounded time for a correlated reply;
- the conference record (`protocol.py`) and its dictionary form, which is what travels in socket.io payloads;
- the audio mixer (`AudioMixer.py`), which keeps the latest int16 buffer per user and mixes them. It truncates every buffer to the shortest, takes the mean, attenuates by `0.7 / n` when there are several streams, then clips and narrows back to int16;
- the video grid manager's state and layout arithmetic (`VideoManager.py`): which participants have a cell and whether it is active, the screen-share owner, and where `update_layout` places each active video.

The code has no peer-to-peer/relay mode switch, no connection registry keyed by channel, no server-side audio mixing, no signalling relay and no server handler for `close_conference`. The server forwards audio verbatim, and the model does the same.

Modelling conventions:
- Python dict insertion order matters in four places, each modelled by an `order` sequence kept in step with its map (`Common.OrdersKeys`):
  - the server's disconnect handler stops at the first conference that holds the socket;
  - the server's `get_conferences` lists the conferences in table order (conf_server.py:103), so a client that picks a conference by name takes the first match in that order (GUI.py:176);
  - the mixer averages its buffers in that order;
  - the grid places videos in that order.
- An emit is a returned record rather than a send. A socket.io room is the participant set of its conference at the moment of the emit; `skip_sid` removes the socket the event arrived on from that set.
- On the client, each `asyncio.wait_for` is a reply parameter: `Some(data)` when the reply arrives within the timeout, `None` when it does not. The awaited future is a `Slot` (idle, pending, or done with a result).
- An exception that a Python handler would raise part-way (`AttributeError`, `KeyError`) is a returned `raised` flag, with the state left as it was at the point of the raise.
- Audio arithmetic is on exact reals; int16 wrap-around of the byte encoding is written out.

## Model

| member | source | states |
|---|---|---|
| Protocol.ToDict | protocol.py:12-13 | the attribute dictionary has exactly the five field names, each holds a value of its field's kind, and `from_dict` rebuilds the same conference from it |
| Protocol.FromDict | protocol.py:15-17 | `Conference(**d)` succeeds iff every key is a field, the four fields without a default are present and each value has its field's kind; an unknown key is reported as such; an omitted `max_participants` takes the default |
| Protocol.ToDictFromDict | protocol.py:12-17 | a well-typed dictionary holding all five fields is the dictionary form of the conference built from it (the other half of the round trip) |
| Protocol.DefaultCapacity | protocol.py:4-10 | a record without `max_participants` becomes a conference of capacity 10 |
| RoomServer.NewConference | conf_server.py:56-61 | a new conference has the fresh id and the requested name, the creator as its only participant stored under their display name, and the default capacity |
| RoomServer.Dropped | conf_server.py:88-90 | removing a participant removes exactly that key and keeps every other name and field |
| RoomServer.Admits | conf_server.py:73 | a join is admitted exactly into an existing conference holding fewer participants than its capacity |
| RoomServer.Holds | conf_server.py:88 | the socket is a participant of an existing conference (the guard of leave and of chat) |
| RoomServer.FirstHolder | conf_server.py:20-27 | the index found is the first conference, in table order, that holds the socket; none is found iff no conference holds it |
| RoomServer.FirstHolderIsFirst | conf_server.py:20-27 | an index that holds the socket, with no earlier holder, is the one the scan stops at |
| RoomServer.DeleteKeepsOrder | conf_server.py:96-97 | deleting a conference keeps the order sequence a duplicate-free listing of the remaining keys |
| RoomServer.DropKeepsTable | conf_server.py:20-23 | removing a disconnected socket from one conference keeps the table's keys, ids, order and capacities |
| RoomServer.ListDescribesTable | conf_server.py:103 | one dictionary record per conference in table order: each decodes to its conference, and every conference is listed |
| RoomServer.JoinKeepsCapacity | conf_server.py:73-74 | an admitted join never takes a conference beyond its capacity |
| RoomServer.RoomManager.constructor | conf_server.py:11 | the table starts empty |
| RoomServer.RoomManager.CreateConference | conf_server.py:54-65 | the new conference is stored under its fresh id and appended to the order; its record is broadcast to every client |
| RoomServer.RoomManager.JoinConference | conf_server.py:67-81 | below capacity the joiner is added under its name, gets the record, and the others get a `participant_joined` notice; otherwise the table is unchanged and only the joiner gets `join_conference_failed`; capacity holds afterwards |
| RoomServer.RoomManager.LeaveConference | conf_server.py:83-97 | a non-member's leave changes nothing; a member is removed, the remaining members are told under the stored name, and the conference is deleted exactly when it becomes empty |
| RoomServer.RoomManager.Disconnect | conf_server.py:17-27 | the socket is removed from the first conference in table order that holds it, and from no other; an emptied conference stays in the table; no holder means no change |
| RoomServer.RoomManager.GetConferences | conf_server.py:99-109 | the requester alone gets one record per live conference, in table order, each decoding to that conference; every live conference is listed |
| RoomServer.RoomManager.SendMessage | conf_server.py:112-119 | chat goes to the whole room, sender included, under the sender's stored name, and only when the sender is a participant |
| RoomServer.RoomManager.HandleAudio | conf_server.py:121-126 | an audio packet is forwarded unchanged to the room minus the socket it arrived on |
| RoomServer.RoomManager.HandleVideo | conf_server.py:128-132 | a video packet is forwarded unchanged to the room minus the socket it arrived on |
| RoomServer.RoomManager.HandleScreenShare | conf_server.py:134-138 | a screen packet is forwarded unchanged to the room minus the socket it arrived on |
| RoomServer.Relay | conf_server.py:121-138 | nothing is sent iff the conference is unknown (membership of the sending socket is not checked); otherwise one emit of the packet to the members minus the socket it arrived on |
| ConferenceClient.DecodeAll | conf_client.py:123 | the list comprehension succeeds iff every record decodes, and then yields each record's conference at its position |
| ConferenceClient.ListResult | conf_client.py:121-129 | the returned list is the decoded records, or empty when the `conferences` key is missing or any record fails |
| ConferenceClient.ConferenceClient.InConference | conf_client.py:34 | the client is in a conference and it is the named one (the guard of the closed, joined and left handlers) |
| ConferenceClient.ConferenceClient.constructor | conf_client.py:14-16 | no conference and no pending request at start |
| ConferenceClient.ConferenceClient.OnDisconnect | conf_client.py:22-25 | loses the current conference |
| ConferenceClient.ConferenceClient.OnConferenceCreated | conf_client.py:27-31 | answers by requesting the list |
| ConferenceClient.ConferenceClient.OnConferenceClosed | conf_client.py:32-38 | drops the conference iff it is the closed one; that path then raises on the missing `master` attribute |
| ConferenceClient.ConferenceClient.OnConferenceJoined | conf_client.py:39-44 | a decodable record becomes the current conference and resolves a pending join with `True`; an undecodable one raises and changes nothing |
| ConferenceClient.ConferenceClient.OnParticipantJoined | conf_client.py:46-49 | inside the named conference the participant is added under its name; otherwise nothing changes |
| ConferenceClient.ConferenceClient.OnParticipantLeft | conf_client.py:51-54 | inside the named conference the participant is removed, raising when it is absent; otherwise nothing changes |
| ConferenceClient.ConferenceClient.OnConferenceListReply | conf_client.py:59-72 | a pending list request is resolved with the reply, a resolved or idle one is left alone |
| ConferenceClient.ConferenceClient.CreateConference | conf_client.py:88-89 | emits the create request with name and user name |
| ConferenceClient.ConferenceClient.JoinConference | conf_client.py:91-103 | emits the join request; times out iff no decodable `conference_joined` record arrives; on success the conference is the received one; the join slot is cleared in every case |
| ConferenceClient.ConferenceClient.LeaveConference | conf_client.py:105-107 | without a current conference, raises before sending anything and changes nothing; otherwise emits the leave request for the current conference and forgets it |
| ConferenceClient.ConferenceClient.GetConferences | conf_client.py:109-131 | when not connected returns empty without emitting; otherwise emits the request, returns the decoded reply (empty on timeout or bad data) and clears the slot |
| ConferenceClient.ConferenceClient.SendMessage | conf_client.py:133-135 | chat is emitted for the current conference only while in one |
| ConferenceClient.ConferenceClient.SendAudio | conf_client.py:137-143 | audio is emitted with conference id, data and own id only while in a conference |
| ConferenceClient.ConferenceClient.SendVideo | conf_client.py:145-151 | on the video channel, the frame's `data` entry is emitted while in a conference; a frame without one raises |
| ConferenceClient.ConferenceClient.SendScreenShare | conf_client.py:153-168 | on the screen channel, a dictionary's `data` entry or raw data is emitted while in a conference; a dictionary without `data` raises |
| ConferenceClient.ConferenceClient.CloseConference | conf_client.py:170-175 | emits the close request for the current conference only while in one |
| RoundTrip.ListRoundTrip | conf_server.py:99-106 | the records the server sends decode on the client, through `ListResult`, to exactly the server's conferences in table order |
| RoundTrip.MediaReachesOthers | conf_server.py:128-132 | a relayed packet reaches every other member of an existing conference and never the socket it came from |
| Audio.SampleOf | AudioMixer.py:26 | two little-endian bytes decode to an int16 value |
| Audio.BytesOf | AudioMixer.py:44 | an int16 value encodes to two bytes that decode back to it |
| Audio.BytesOfSampleOf | AudioMixer.py:26 | every byte pair is the encoding of the sample it decodes to |
| Audio.Decode | AudioMixer.py:26 | an even-length buffer decodes to half as many int16 samples |
| Audio.Encode | AudioMixer.py:44 | int16 samples encode to twice as many bytes |
| Audio.DecodeEncode | AudioMixer.py:26 | decoding an encoded sample array gives it back |
| Audio.EncodeDecode | AudioMixer.py:44 | encoding a decoded even-length buffer gives it back |
| Audio.MinLength | AudioMixer.py:30 | the minimum length is no longer than any array and equals one of them |
| Audio.Truncated | AudioMixer.py:31 | one array per input, each of length `m` and a prefix of its input |
| Audio.Clip | AudioMixer.py:41 | the result lies in the int16 range: a value already in range is unchanged, one below it becomes the lower bound and one above it the upper bound |
| Audio.TruncToInt | AudioMixer.py:42 | the float-to-int16 cast rounds toward zero |
| Audio.MixedSample | AudioMixer.py:34-42 | every mixed sample is an int16 value |
| Audio.MixSamples | AudioMixer.py:30-42 | the mix has the shortest array's length and holds int16 values |
| Audio.DecodeAll | AudioMixer.py:23-27 | one sample array per buffer, at its position: half the buffer's length, every value an int16, and encoding back to exactly that buffer |
| Audio.Mix | AudioMixer.py:17-44 | no streams give empty output; the result is an error iff some buffer has odd length |
| Audio.MixDecodes | AudioMixer.py:17-44 | the output bytes are the int16 encoding of the sample-wise mix of the decoded, truncated buffers |
| Audio.MixLength | AudioMixer.py:29-31 | the output is no longer than any input buffer and exactly as long as the shortest |
| Audio.MixSingle | AudioMixer.py:37-44 | one stream is returned unchanged: no attenuation, and clipping and narrowing are identities |
| Audio.ColumnSum | AudioMixer.py:34 | the column sum of `n` int16 samples lies within `n` times the int16 bounds |
| Audio.Mean | AudioMixer.py:34 | the mean times the number of streams is the column sum |
| Audio.Attenuated | AudioMixer.py:37-38 | one stream is left as is; with `n > 1` streams the value times `n` is 0.7 times the mean |
| Audio.AttenuationBound | AudioMixer.py:37-38 | with several streams, the attenuated mean lies within ±11468.8 |
| Audio.MixedSampleSeveral | AudioMixer.py:34-42 | with several streams, a mixed sample is the truncated, attenuated mean and never reaches the clip bounds (±11468) |
| Audio.MixSeveral | AudioMixer.py:17-44 | with several buffers, each output sample is the truncated mean times `0.7 / n` and lies within ±11468 |
| Audio.MixedSampleOpposite | AudioMixer.py:34-42 | two opposite samples mix to zero |
| Audio.MixCancels | AudioMixer.py:17-44 | two equal-length streams of opposite samples mix to silence |
| Audio.AudioMixer.constructor | AudioMixer.py:5-6 | the mixer starts with no buffers |
| Audio.AudioMixer.Streams | AudioMixer.py:24 | one buffer per user, every user's buffer present, in dictionary order |
| Audio.AudioMixer.AddAudioStream | AudioMixer.py:8-10 | the user's buffer is replaced; a new user goes last, an existing one keeps its place |
| Audio.AudioMixer.RemoveAudioStream | AudioMixer.py:12-15 | the user's buffer is removed, and an absent user changes nothing |
| Audio.AudioMixer.MixAudio | AudioMixer.py:17-44 | the loop over the buffers computes exactly `Mix` of the buffers in dictionary order |
| Video.CeilSqrt | VideoManager.py:298 | the column count is the least `c` with `c * c >= n` |
| Video.CeilDiv | VideoManager.py:299 | the row count is the least `r` with `r * cols >= n` |
| Video.CellSize | VideoManager.py:302-306 | a cell is the larger of the default size and the measured size (or the fallback for a measured zero) divided by the count |
| Video.GridFits | VideoManager.py:297-299 | for `n >= 1` videos the grid has room for all, no spare row, and no more rows than columns |
| Video.CellInside | VideoManager.py:315-317 | the cell `(idx // cols, idx % cols)` of every index lies inside the grid |
| Video.CellsDistinct | VideoManager.py:315-317 | two indices never share a cell |
| Video.PlacementsFit | VideoManager.py:315-320 | cells placed row by row lie inside a grid with room for every video, and no two share a cell |
| Video.PlaceGrid | VideoManager.py:296-320 | the loop builds a grid that shows every active video exactly once, in order, each in its own cell, each at least 320×240; the cell size is `max(320, width // cols)` by `max(240, height // rows)` of the measured container |
| Video.ActiveIds | VideoManager.py:290-291 | exactly the active participants, without duplicates |
| Video.ActivePositions | VideoManager.py:290-291 | the active participants stand at strictly increasing places of the table |
| Video.ActiveIdsInOrder | VideoManager.py:290-291 | any two active participants come in the same order as in the table |
| Video.VideoGridManager.constructor | VideoManager.py:7-20 | no videos and no screen share at start |
| Video.VideoGridManager.AddVideo | VideoManager.py:52-78 | an existing participant is kept as is; a new one is appended, inactive, or active when an initial image is given |
| Video.VideoGridManager.SetVideoActive | VideoManager.py:105-124 | sets only that participant's flag; an unknown participant changes nothing |
| Video.VideoGridManager.UpdateVideo | VideoManager.py:126-143 | the participant ends up present and active; only a new one is appended |
| Video.VideoGridManager.RemoveVideo | VideoManager.py:347-371 | removes exactly that participant's cell |
| Video.VideoGridManager.StartScreenShare | VideoManager.py:145-171 | refused iff sharing is on under another sharer; otherwise the sharer is recorded; keeps sharing-iff-sharer |
| Video.VideoGridManager.UpdateScreenShare | VideoManager.py:173-240 | a shown frame turns sharing on without recording a sharer; a frame that cannot be shown changes nothing; a failing final refresh returns false with sharing already on |
| Video.VideoGridManager.StopScreenShare | VideoManager.py:242-274 | accepted iff the caller is the recorded sharer; then sharing is off and no sharer is recorded |
| Video.VideoGridManager.UpdateLayout | VideoManager.py:276-320 | while sharing the grid is hidden; without active videos nothing is placed; otherwise every active video in table order gets its own cell inside a `ceil(sqrt n)`-column grid, sized `max(320, width // cols)` by `max(240, height // rows)` of the measured container |

## Left out

- Transport: socket.io connections, namespaces, the `connect` handlers, and `enter_room`/`leave_room` are not modelled. A room is represented by the participant set of its conference. The two differ only for a socket in several conferences. On disconnect socket.io removes the socket from every room, but the server's table, and so the model, keeps it among the participants of every conference after the first that holds it (conf_server.py:20-27 stops at the first). Later emits to those rooms name it as a recipient in the model, while socket.io no longer delivers to it.
- Media relay: `skip_sid` removes only the socket a packet arrived on. The client sends video and screen packets on its separate `video_sio` and `screen_sio` sockets (conf_client.py:8-12, 145-166), while it joins conferences on `sio` (conf_client.py:97). Those two sockets are never participants, so for video and screen nobody is skipped, and the sender's main socket gets its own frames back (GUI.py:258-260). A `Sid` in the model is one socket; which client owns which sockets is not modelled.
- `some_event` (conf_server.py:28-31) is left out. It is a test echo with no state.
- The server's second copies of the `audio`, `video` and `screen_share` handlers (conf_server.py:141-158) replace the first ones with identical bodies, so they are modelled once.
- Once the conference frame is shown, the GUI registers its own `participant_joined` and `participant_left` handlers on the client's socket (GUI.py:263-264). These replace `OnParticipantJoined` and `OnParticipantLeft`. The GUI's leave handler checks that the id is present before the `del` (GUI.py:365), so the modelled `KeyError` of `OnParticipantLeft` can only happen before that frame exists. The GUI's handlers are not modelled.
- The client's handlers for `conference_list` and `conference_list_response` have the same effect, so both are `OnConferenceListReply`.
- `uuid.uuid4()` is not modelled: the fresh id is a parameter, and it must not already name a conference.
- A payload that lacks a key raises before any state changes, so every handler takes the payload's fields as parameters.
- Emit failures and exceptions raised from inside socket.io are not modelled.
- Each asyncio handler is modelled as one atomic step, but asyncio can interleave handlers at every `await`. For example, `on_leave_conference` tests for emptiness only after two awaits (conf_server.py:91-97), so two interleaved last leaves both reach `del conferences[conf_id]` and the second raises `KeyError`. Such interleavings are not modelled.
- Protocol.FromDict: weaker than Python in one respect. A Python dataclass does not check value types, so `Conference(**d)` accepts a wrongly typed value that the model rejects as `IllTyped`.
- `to_dict` returns the object's own `__dict__`, so a caller could alias it. The model returns a value.
- ConferenceClient.ConferenceClient.GetConferences: `sio.connected` is a parameter. A bare exception other than a timeout produces the same empty result as a decode failure.
- The client's `connect`, `disconnect` and `server_url` are not modelled: they are transport calls.
- The `master` attribute that `on_conference_closed` reads is not modelled. It is never assigned in the client, which is why that path raises.
- The server never emits `conference_closed` and has no `close_conference` handler. The client's handler and `close_conference` request are modelled, but nothing on the server answers them.
- Audio uses exact real arithmetic instead of numpy's float32 mean. Rounding of the float32 result is not modelled.
- Audio.Mix: a buffer of odd length gives an `OddLength` error. numpy's `frombuffer` raises `ValueError` on such a buffer.
- Video: all Tk and PIL work is left out: widgets, `grid`/`grid_remove`, images, black placeholders, `_resize_image_for_layout` and the screen frame's aspect-ratio scaling.
- Video: the measured container size is a parameter (`winfo_width`), and a size of zero falls back to 800×600.
- Video.CeilSqrt: integer ceiling square root, where the source uses float `math.sqrt`. The two agree for every participant count a screen can hold.
- Video.VideoGridManager.StartScreenShare: the exception path (lines 166-171) is left out. It only catches widget failures.
- Video.VideoGridManager.StopScreenShare: the exception path (lines 269-274) is left out. It only catches widget failures.
- Video.VideoGridManager.RemoveVideo: the exception path (lines 370-371) is left out. A failing widget call before the `del` (lines 352-363) is caught there and leaves the entry in place; the model always removes it.
- Video: the first `remove_video` definition (VideoManager.py:80-103) is overridden by the second, so only the second is modelled.
- `update_layout` calls made from inside the mutating methods only reposition widgets, so `UpdateLayout` is a query.
- GUI.py and ControlBar.py are not part of this model.
