/**
 * The client's session state: the conference it is in and the two
 * correlation slots through which a request awaits its reply.
 *
 * Every socket emit is returned as an `Emit` record. An awaited reply is a
 * parameter: `Some(data)` when the reply event arrives within the five-second
 * timeout (its handler then runs during the wait), `None` when the wait times out.
 */
module ConferenceClient {
  import opened Common
  import opened Protocol

  /** An asyncio future held in a slot: no future, one not yet done, or one done with a result. */
  datatype Slot<T> = Idle | Pending | Done(result: T)

  /** The three socket.io clients: the main channel and the video and screen channels. */
  datatype Channel = Main | VideoChannel | ScreenChannel

  datatype Request =
    | NoArgs
    | CreateArgs(name: string, username: string)
    | JoinArgs(conferenceId: ConferenceId, username: string)
    | LeaveArgs(conferenceId: ConferenceId)
    | ChatArgs(conferenceId: ConferenceId, message: string)
    | MediaArgs(conferenceId: ConferenceId, data: seq<byte>, senderId: string)
    | CloseArgs(conferenceId: ConferenceId)

  datatype Emit = Emit(channel: Channel, event: string, args: Request)

  /** The payload of a conference-list reply: its "conferences" entry holds the records. */
  type ListReply = map<string, seq<Dict>>

  /** What is handed to `send_screen_share`: a dictionary with a "data" entry, or raw data. */
  datatype ScreenData = Wrapped(fields: map<string, seq<byte>>) | Raw(data: seq<byte>)

  /** `[Conference.from_dict(d) for d in ds]`: fails as a whole when any record fails. */
  function DecodeAll(ds: seq<Dict>): (r: Option<seq<Conference>>)
    ensures r.Some? <==> forall i :: 0 <= i < |ds| ==> FromDict(ds[i]).Ok?
    ensures r.Some? ==> |r.value| == |ds| && forall i :: 0 <= i < |ds| ==> FromDict(ds[i]) == Ok(r.value[i])
  {
    if ds == [] then Some([])
    else match (FromDict(ds[0]), DecodeAll(ds[1..]))
      case (Ok(c), Some(cs)) =>
        assert forall i :: 1 <= i < |ds| ==> ds[i] == ds[1..][i - 1];
        Some([c] + cs)
      case (Ok(_), None) =>
        assert !FromDict(ds[1..][0]).Ok? || exists i :: 1 <= i < |ds[1..]| && !FromDict(ds[1..][i]).Ok?;
        None
      case (Err(_), _) => None
  }

  /** The list `get_conferences` returns for a reply payload: every record decoded, else empty. */
  function ListResult(data: ListReply): (r: seq<Conference>)
    ensures "conferences" !in data ==> r == []
    ensures "conferences" in data && DecodeAll(data["conferences"]).Some? ==>
      |r| == |data["conferences"]| && forall i :: 0 <= i < |r| ==> FromDict(data["conferences"][i]) == Ok(r[i])
    ensures "conferences" in data && DecodeAll(data["conferences"]).None? ==> r == []
  {
    if "conferences" !in data then []
    else match DecodeAll(data["conferences"])
      case Some(cs) => cs
      case None => []
  }

  class ConferenceClient {
    var conference: Option<Conference>
    var joinSlot: Slot<bool>
    var listSlot: Slot<ListReply>

    constructor ()
      ensures conference == None && joinSlot == Idle && listSlot == Idle
    {
      conference := None;
      joinSlot := Idle;
      listSlot := Idle;
    }

    /** True when the client is in conference `id`. */
    predicate InConference(id: ConferenceId)
      reads this
    {
      conference.Some? && conference.value.id == id
    }

    /** Handler of the main channel's `disconnect`: the conference is forgotten. */
    method OnDisconnect()
      modifies this
      ensures conference == None
      ensures joinSlot == old(joinSlot) && listSlot == old(listSlot)
    {
      conference := None;
    }

    /** Handler of `conference_created`: asks for a fresh conference list and changes nothing. */
    method OnConferenceCreated() returns (out: seq<Emit>)
      ensures out == [Emit(Main, "get_conferences", NoArgs)]
    {
      out := [Emit(Main, "get_conferences", NoArgs)];
    }

    /**
     * Handler of `conference_closed`: forgets the conference when the id
     * matches. On that path it then reads an attribute the client does not
     * have, so `raised` reports the AttributeError, after the conference is cleared.
     */
    method OnConferenceClosed(id: ConferenceId) returns (raised: bool)
      modifies this
      ensures raised == old(InConference(id))
      ensures conference == if raised then None else old(conference)
      ensures joinSlot == old(joinSlot) && listSlot == old(listSlot)
    {
      raised := InConference(id);
      if raised {
        conference := None;
      }
    }

    /**
     * Handler of `conference_joined`: the received record replaces the
     * conference and resolves a pending join. A record `from_dict` refuses
     * raises (`raised`) before anything changes.
     */
    method OnConferenceJoined(data: Dict) returns (raised: bool)
      modifies this
      ensures raised <==> FromDict(data).Err?
      ensures raised ==> conference == old(conference) && joinSlot == old(joinSlot)
      ensures !raised ==> conference == Some(FromDict(data).value)
      ensures !raised ==> joinSlot == if old(joinSlot) == Pending then Done(true) else old(joinSlot)
      ensures listSlot == old(listSlot)
    {
      match FromDict(data)
      case Err(_) =>
        raised := true;
      case Ok(c) =>
        raised := false;
        conference := Some(c);
        if joinSlot == Pending {
          joinSlot := Done(true);
        }
    }

    /** Handler of `participant_joined`: inserts or overwrites the entry when the id matches. */
    method OnParticipantJoined(id: ConferenceId, clientId: ClientId, clientName: string)
      modifies this
      ensures old(InConference(id)) ==>
        conference == Some(old(conference).value.(participants := old(conference).value.participants[clientId := clientName]))
      ensures !old(InConference(id)) ==> conference == old(conference)
      ensures joinSlot == old(joinSlot) && listSlot == old(listSlot)
    {
      if InConference(id) {
        var c := conference.value;
        conference := Some(c.(participants := c.participants[clientId := clientName]));
      }
    }

    /**
     * Handler of `participant_left`: removes the entry when the id matches;
     * `del` of an absent entry raises KeyError (`raised`) and changes nothing.
     */
    method OnParticipantLeft(id: ConferenceId, clientId: ClientId) returns (raised: bool)
      modifies this
      ensures raised <==> old(InConference(id)) && clientId !in old(conference).value.participants
      ensures old(InConference(id)) && !raised ==>
        conference == Some(old(conference).value.(participants := old(conference).value.participants - {clientId}))
      ensures !old(InConference(id)) || raised ==> conference == old(conference)
      ensures joinSlot == old(joinSlot) && listSlot == old(listSlot)
    {
      raised := false;
      if InConference(id) {
        var c := conference.value;
        if clientId in c.participants {
          conference := Some(c.(participants := c.participants - {clientId}));
        } else {
          raised := true;
        }
      }
    }

    /**
     * Handler of both `conference_list` and `conference_list_response`:
     * resolves the list slot once, and only while it is pending.
     */
    method OnConferenceListReply(data: ListReply)
      modifies this
      ensures listSlot == if old(listSlot) == Pending then Done(data) else old(listSlot)
      ensures conference == old(conference) && joinSlot == old(joinSlot)
    {
      if listSlot == Pending {
        listSlot := Done(data);
      }
    }

    /** `create_conference`: a request on the main channel, no state change. */
    method CreateConference(name: string, username: string) returns (out: seq<Emit>)
      ensures out == [Emit(Main, "create_conference", CreateArgs(name, username))]
    {
      out := [Emit(Main, "create_conference", CreateArgs(name, username))];
    }

    /**
     * `join_conference`: arms the join slot, sends the request and waits.
     * `reply` is the `conference_joined` record if it arrives in time. The wait
     * ends with the slot resolved, or times out (`timedOut`, the TimeoutError
     * the caller sees); either way the slot is cleared on return.
     */
    method JoinConference(id: ConferenceId, username: string, reply: Option<Dict>) returns (out: seq<Emit>, timedOut: bool)
      modifies this
      ensures out == [Emit(Main, "join_conference", JoinArgs(id, username))]
      ensures joinSlot == Idle
      ensures timedOut <==> !(reply.Some? && FromDict(reply.value).Ok?)
      ensures conference == if timedOut then old(conference) else Some(FromDict(reply.value).value)
      ensures listSlot == old(listSlot)
    {
      joinSlot := Pending;
      out := [Emit(Main, "join_conference", JoinArgs(id, username))];
      if reply.Some? {
        var _ := OnConferenceJoined(reply.value);
      }
      timedOut := joinSlot != Done(true);
      joinSlot := Idle;
    }

    /**
     * `leave_conference`: reads `self.conference.id` before anything else, so
     * without a current conference it raises AttributeError (`raised`) with
     * nothing sent and nothing changed; otherwise it sends the leave request
     * and forgets the conference.
     */
    method LeaveConference() returns (out: seq<Emit>, raised: bool)
      modifies this
      ensures raised <==> old(conference).None?
      ensures raised ==> out == [] && conference == old(conference)
      ensures !raised ==> out == [Emit(Main, "leave_conference", LeaveArgs(old(conference).value.id))]
      ensures conference == None
      ensures joinSlot == old(joinSlot) && listSlot == old(listSlot)
    {
      raised := conference.None?;
      if raised {
        out := [];
      } else {
        out := [Emit(Main, "leave_conference", LeaveArgs(conference.value.id))];
        conference := None;
      }
    }

    /**
     * `get_conferences`: empty when not connected; otherwise arms the list
     * slot, sends the request and waits. A timeout, a reply without a
     * "conferences" entry, or a record `from_dict` refuses gives the empty
     * list. The slot is cleared on every path that armed it.
     */
    method GetConferences(connected: bool, reply: Option<ListReply>) returns (out: seq<Emit>, result: seq<Conference>)
      modifies this
      ensures !connected ==> out == [] && result == [] && listSlot == old(listSlot)
      ensures connected ==> out == [Emit(Main, "get_conferences", NoArgs)] && listSlot == Idle
      ensures connected ==> result == if reply.Some? then ListResult(reply.value) else []
      ensures conference == old(conference) && joinSlot == old(joinSlot)
    {
      if !connected {
        out, result := [], [];
        return;
      }
      listSlot := Pending;
      out := [Emit(Main, "get_conferences", NoArgs)];
      if reply.Some? {
        OnConferenceListReply(reply.value);
      }
      if listSlot.Done? {
        result := ListResult(listSlot.result);
      } else {
        result := [];
      }
      listSlot := Idle;
    }

    /** `send_message`: sent only from inside a conference. */
    method SendMessage(message: string) returns (out: seq<Emit>)
      ensures conference.None? ==> out == []
      ensures conference.Some? ==> out == [Emit(Main, "send_message", ChatArgs(conference.value.id, message))]
    {
      out := [];
      if conference.Some? {
        out := [Emit(Main, "send_message", ChatArgs(conference.value.id, message))];
      }
    }

    /** `send_audio`: sent on the main channel, tagged with the main channel's socket id. */
    method SendAudio(data: seq<byte>, ownSid: string) returns (out: seq<Emit>)
      ensures conference.None? ==> out == []
      ensures conference.Some? ==> out == [Emit(Main, "audio", MediaArgs(conference.value.id, data, ownSid))]
    {
      out := [];
      if conference.Some? {
        out := [Emit(Main, "audio", MediaArgs(conference.value.id, data, ownSid))];
      }
    }

    /**
     * `send_video`: sends the "data" entry of a frame dictionary on the video
     * channel; a frame without one raises KeyError (`raised`) and sends nothing.
     */
    method SendVideo(frame: map<string, seq<byte>>, ownSid: string) returns (out: seq<Emit>, raised: bool)
      ensures conference.None? ==> out == [] && !raised
      ensures conference.Some? ==> raised == ("data" !in frame)
      ensures conference.Some? && "data" in frame ==>
        out == [Emit(VideoChannel, "video", MediaArgs(conference.value.id, frame["data"], ownSid))]
      ensures raised ==> out == []
    {
      out, raised := [], false;
      if conference.Some? {
        if "data" in frame {
          out := [Emit(VideoChannel, "video", MediaArgs(conference.value.id, frame["data"], ownSid))];
        } else {
          raised := true;
        }
      }
    }

    /**
     * `send_screen_share`: on the screen channel, the "data" entry of a
     * dictionary or else the raw value itself.
     */
    method SendScreenShare(screen: ScreenData, ownSid: string) returns (out: seq<Emit>, raised: bool)
      ensures conference.None? ==> out == [] && !raised
      ensures raised <==> conference.Some? && screen.Wrapped? && "data" !in screen.fields
      ensures conference.Some? && screen.Raw? ==>
        out == [Emit(ScreenChannel, "screen_share", MediaArgs(conference.value.id, screen.data, ownSid))]
      ensures conference.Some? && screen.Wrapped? && "data" in screen.fields ==>
        out == [Emit(ScreenChannel, "screen_share", MediaArgs(conference.value.id, screen.fields["data"], ownSid))]
      ensures raised ==> out == []
    {
      out, raised := [], false;
      if conference.Some? {
        match screen
        case Wrapped(fields) =>
          if "data" in fields {
            out := [Emit(ScreenChannel, "screen_share", MediaArgs(conference.value.id, fields["data"], ownSid))];
          } else {
            raised := true;
          }
        case Raw(data) =>
          out := [Emit(ScreenChannel, "screen_share", MediaArgs(conference.value.id, data, ownSid))];
      }
    }

    /** `close_conference`: a request sent only from inside a conference. */
    method CloseConference() returns (out: seq<Emit>)
      ensures conference.None? ==> out == []
      ensures conference.Some? ==> out == [Emit(Main, "close_conference", CloseArgs(conference.value.id))]
    {
      out := [];
      if conference.Some? {
        out := [Emit(Main, "close_conference", CloseArgs(conference.value.id))];
      }
    }
  }
}
