/**
 * The server's room manager: the process-wide table of conferences that the
 * socket.io event handlers update in place, and the events they emit.
 *
 * An emit is returned as an `Outbound` record instead of being sent. A
 * socket.io room is represented by the participant set of its conference at
 * the moment of the emit; `skip_sid` removes the socket the event arrived on
 * from that set.
 */
module RoomServer {
  import opened Common
  import opened Protocol

  type Sid = string

  /** Who receives an emit: every connected client, or the listed sockets. */
  datatype Scope = Everyone | To(sids: set<Sid>)

  datatype Payload =
    | NoPayload
    | ConferenceRecord(record: Dict)
    | ParticipantNotice(conferenceId: ConferenceId, clientId: Sid, clientName: string)
    | ChatMessage(sender: string, message: string)
    | ConferenceList(records: seq<Dict>)
    | Media(packet: MediaPacket)

  /** An audio, video or screen packet as a client sends it; the server forwards it verbatim. */
  datatype MediaPacket = MediaPacket(conferenceId: ConferenceId, data: seq<byte>, senderId: string)

  datatype Outbound = Outbound(event: string, payload: Payload, scope: Scope)

  /**
   * A new conference carries the requested name and has the creator, under
   * their display name, as its only participant, with the default capacity.
   */
  function NewConference(id: ConferenceId, name: string, creator: Sid, username: string): (c: Conference)
    ensures c.participants.Keys == {creator} && c.participants[creator] == username
    ensures c.maxParticipants == DefaultMaxParticipants
    ensures c.id == id && c.name == name && c.creatorId == creator
  {
    Conference(id, name, creator, map[creator := username])
  }

  /** A join is admitted only into an existing conference that is below its capacity. */
  predicate Admits(conferences: map<ConferenceId, Conference>, id: ConferenceId)
  {
    id in conferences && |conferences[id].participants| < conferences[id].maxParticipants
  }

  /** `sid` is a participant of conference `id`. */
  predicate Holds(conferences: map<ConferenceId, Conference>, id: ConferenceId, sid: Sid)
  {
    id in conferences && sid in conferences[id].participants
  }

  /** No conference holds more participants than its capacity. */
  predicate WithinCapacity(conferences: map<ConferenceId, Conference>)
  {
    forall id :: id in conferences ==> |conferences[id].participants| <= conferences[id].maxParticipants
  }

  /** Removes one participant from conference `id`. */
  function Dropped(c: Conference, sid: Sid): (c': Conference)
    ensures c'.participants.Keys == c.participants.Keys - {sid}
    ensures forall p :: p in c'.participants ==> c'.participants[p] == c.participants[p]
    ensures c'.id == c.id && c'.name == c.name && c'.creatorId == c.creatorId && c'.maxParticipants == c.maxParticipants
    ensures |c'.participants| <= |c.participants|
  {
    c.(participants := c.participants - {sid})
  }

  /**
   * The first conference, in table order, that holds `sid`: the one the
   * disconnect handler's loop stops at.
   */
  function FirstHolder(ids: seq<ConferenceId>, conferences: map<ConferenceId, Conference>, sid: Sid): (r: Option<nat>)
    requires forall i :: 0 <= i < |ids| ==> ids[i] in conferences
    ensures r.Some? ==> r.value < |ids| && sid in conferences[ids[r.value]].participants
    ensures r.Some? ==> forall j :: 0 <= j < r.value ==> sid !in conferences[ids[j]].participants
    ensures r.None? <==> forall j :: 0 <= j < |ids| ==> sid !in conferences[ids[j]].participants
  {
    if ids == [] then None
    else if sid in conferences[ids[0]].participants then Some(0)
    else match FirstHolder(ids[1..], conferences, sid)
      case None => None
      case Some(k) => Some(k + 1)
  }

  /** The table of live conferences and the order in which they were created. */
  class RoomManager {
    var conferences: map<ConferenceId, Conference>
    var order: seq<ConferenceId>

    /** Table invariant: keys are conference ids, `order` lists them once each, capacities hold. */
    ghost predicate Valid()
      reads this
    {
      && OrdersKeys(order, conferences)
      && (forall id :: id in conferences ==> conferences[id].id == id)
      && WithinCapacity(conferences)
    }

    constructor ()
      ensures Valid() && conferences == map[] && order == []
    {
      conferences := map[];
      order := [];
    }

    /** `create_conference`: `freshId` stands for the new random UUID. */
    method CreateConference(sid: Sid, name: string, username: string, freshId: ConferenceId) returns (out: seq<Outbound>)
      requires Valid()
      requires freshId !in conferences
      modifies this
      ensures Valid()
      ensures conferences == old(conferences)[freshId := NewConference(freshId, name, sid, username)]
      ensures order == old(order) + [freshId]
      ensures out == [Outbound("conference_created", ConferenceRecord(ToDict(conferences[freshId])), Everyone)]
    {
      var c := NewConference(freshId, name, sid, username);
      conferences := conferences[freshId := c];
      order := order + [freshId];
      out := [Outbound("conference_created", ConferenceRecord(ToDict(c)), Everyone)];
    }

    /** `join_conference`: admits `sid` under `username` while the room is below capacity. */
    method JoinConference(sid: Sid, id: ConferenceId, username: string) returns (out: seq<Outbound>)
      requires Valid()
      modifies this
      ensures Valid()
      ensures order == old(order)
      ensures Admits(old(conferences), id) ==>
        && conferences == old(conferences)[id := old(conferences)[id].(participants := old(conferences)[id].participants[sid := username])]
        && out == [
             Outbound("conference_joined", ConferenceRecord(ToDict(conferences[id])), To({sid})),
             Outbound("participant_joined", ParticipantNotice(id, sid, username), To(conferences[id].participants.Keys - {sid}))]
      ensures !Admits(old(conferences), id) ==>
        && conferences == old(conferences)
        && out == [Outbound("join_conference_failed", NoPayload, To({sid}))]
      ensures id in conferences ==> |conferences[id].participants| <= conferences[id].maxParticipants
    {
      if id in conferences && |conferences[id].participants| < conferences[id].maxParticipants {
        var c := conferences[id];
        var c' := c.(participants := c.participants[sid := username]);
        conferences := conferences[id := c'];
        out := [
          Outbound("conference_joined", ConferenceRecord(ToDict(c')), To({sid})),
          Outbound("participant_joined", ParticipantNotice(id, sid, username), To(c'.participants.Keys - {sid}))];
      } else {
        out := [Outbound("join_conference_failed", NoPayload, To({sid}))];
      }
    }

    /**
     * `leave_conference`: removes `sid`, tells the remaining members, and
     * deletes the conference once nobody is left.
     */
    method LeaveConference(sid: Sid, id: ConferenceId) returns (out: seq<Outbound>)
      requires Valid()
      modifies this
      ensures Valid()
      ensures !Holds(old(conferences), id, sid) ==>
        conferences == old(conferences) && order == old(order) && out == []
      ensures Holds(old(conferences), id, sid) ==>
        var rest := Dropped(old(conferences)[id], sid);
        && out == [Outbound("participant_left", ParticipantNotice(id, sid, old(conferences)[id].participants[sid]), To(rest.participants.Keys))]
        && (|rest.participants| == 0 ==> conferences == old(conferences) - {id} && order == Without(old(order), id))
        && (|rest.participants| > 0 ==> conferences == old(conferences)[id := rest] && order == old(order))
      ensures Holds(old(conferences), id, sid) && id in conferences ==> |conferences[id].participants| > 0
    {
      if id in conferences && sid in conferences[id].participants {
        var c := conferences[id];
        var clientName := c.participants[sid];
        var rest := Dropped(c, sid);
        out := [Outbound("participant_left", ParticipantNotice(id, sid, clientName), To(rest.participants.Keys))];
        if |rest.participants| == 0 {
          DeleteKeepsOrder(order, conferences, id);
          conferences := conferences - {id};
          order := Without(order, id);
        } else {
          conferences := conferences[id := rest];
        }
      } else {
        out := [];
      }
    }

    /**
     * `disconnect`: strips `sid` from the first conference, in table order,
     * that holds it; a conference this empties stays in the table.
     */
    method Disconnect(sid: Sid) returns (out: seq<Outbound>)
      requires Valid()
      modifies this
      ensures Valid()
      ensures order == old(order) && conferences.Keys == old(conferences.Keys)
      ensures match FirstHolder(old(order), old(conferences), sid)
        case None => conferences == old(conferences) && out == []
        case Some(k) =>
          var id := old(order)[k];
          var rest := Dropped(old(conferences)[id], sid);
          && conferences == old(conferences)[id := rest]
          && out == [Outbound("participant_left", ParticipantNotice(id, sid, old(conferences)[id].participants[sid]), To(rest.participants.Keys))]
    {
      out := [];
      var i := 0;
      while i < |order|
        invariant 0 <= i <= |order|
        invariant conferences == old(conferences) && out == []
        invariant forall j :: 0 <= j < i ==> sid !in conferences[order[j]].participants
      {
        var id := order[i];
        var c := conferences[id];
        if sid in c.participants {
          var clientName := c.participants[sid];
          var rest := Dropped(c, sid);
          DropKeepsTable(order, conferences, id, sid);
          conferences := conferences[id := rest];
          out := [Outbound("participant_left", ParticipantNotice(id, sid, clientName), To(rest.participants.Keys))];
          assert FirstHolder(order, old(conferences), sid) == Some(i) by {
            FirstHolderIsFirst(order, old(conferences), sid, i);
          }
          return;
        }
        i := i + 1;
      }
    }

    /** `get_conferences`: a snapshot of every live conference, sent to the requester only. */
    method GetConferences(sid: Sid) returns (out: seq<Outbound>)
      requires Valid()
      ensures |out| == 1 && out[0].event == "conference_list_response" && out[0].scope == To({sid})
      ensures out[0].payload.ConferenceList? && |out[0].payload.records| == |order| == |conferences|
      ensures forall i :: 0 <= i < |order| ==>
        FromDict(out[0].payload.records[i]) == Ok(conferences[order[i]])
      ensures forall id :: id in conferences ==>
        exists i :: 0 <= i < |out[0].payload.records| && out[0].payload.records[i] == ToDict(conferences[id])
    {
      var table, ids := conferences, order;
      var records := seq(|ids|, i requires 0 <= i < |ids| && ids[i] in table => ToDict(table[ids[i]]));
      ListDescribesTable(ids, table, records);
      out := [Outbound("conference_list_response", ConferenceList(records), To({sid}))];
    }

    /**
     * `send_message`: relayed to the whole room, sender included, only when the
     * sender is a participant; the payload names the sender by its stored display name.
     */
    method SendMessage(sid: Sid, id: ConferenceId, message: string) returns (out: seq<Outbound>)
      ensures !Holds(conferences, id, sid) ==> out == []
      ensures Holds(conferences, id, sid) ==>
        out == [Outbound("message_received", ChatMessage(conferences[id].participants[sid], message), To(conferences[id].participants.Keys))]
    {
      if id in conferences && sid in conferences[id].participants {
        var c := conferences[id];
        out := [Outbound("message_received", ChatMessage(c.participants[sid], message), To(c.participants.Keys))];
      } else {
        out := [];
      }
    }

    /** `audio`: forwarded verbatim to the room minus the socket it arrived on, when the conference exists. */
    method HandleAudio(sid: Sid, packet: MediaPacket) returns (out: seq<Outbound>)
      ensures out == Relay("audio", conferences, sid, packet)
      ensures forall e :: e in out ==> e.scope.To? && sid !in e.scope.sids
    {
      out := Relay("audio", conferences, sid, packet);
    }

    /** `video`: forwarded verbatim to the room minus the socket it arrived on, when the conference exists. */
    method HandleVideo(sid: Sid, packet: MediaPacket) returns (out: seq<Outbound>)
      ensures out == Relay("video", conferences, sid, packet)
      ensures forall e :: e in out ==> e.scope.To? && sid !in e.scope.sids
    {
      out := Relay("video", conferences, sid, packet);
    }

    /** `screen_share`: forwarded verbatim to the room minus the socket it arrived on, when the conference exists. */
    method HandleScreenShare(sid: Sid, packet: MediaPacket) returns (out: seq<Outbound>)
      ensures out == Relay("screen_share", conferences, sid, packet)
      ensures forall e :: e in out ==> e.scope.To? && sid !in e.scope.sids
    {
      out := Relay("screen_share", conferences, sid, packet);
    }
  }

  /**
   * The media relay: the only check is that the conference exists (the
   * sending socket need not be a participant); the recipients are its members
   * minus the socket the packet arrived on.
   */
  function Relay(event: string, conferences: map<ConferenceId, Conference>, sid: Sid, packet: MediaPacket): (out: seq<Outbound>)
    ensures packet.conferenceId !in conferences <==> out == []
    ensures out != [] ==>
      (|out| == 1 && out[0].event == event && out[0].payload == Media(packet)
       && out[0].scope == To(conferences[packet.conferenceId].participants.Keys - {sid}))
  {
    if packet.conferenceId in conferences then
      [Outbound(event, Media(packet), To(conferences[packet.conferenceId].participants.Keys - {sid}))]
    else []
  }

  /** An index before which no conference holds `sid`, and which holds it, is the first holder. */
  lemma {:induction false} FirstHolderIsFirst(ids: seq<ConferenceId>, conferences: map<ConferenceId, Conference>, sid: Sid, i: nat)
    requires forall j :: 0 <= j < |ids| ==> ids[j] in conferences
    requires i < |ids| && sid in conferences[ids[i]].participants
    requires forall j :: 0 <= j < i ==> sid !in conferences[ids[j]].participants
    ensures FirstHolder(ids, conferences, sid) == Some(i)
  {
    if i > 0 {
      FirstHolderIsFirst(ids[1..], conferences, sid, i - 1);
    }
  }

  /** Deleting a conference keeps the table order in step with the table. */
  lemma DeleteKeepsOrder(order: seq<ConferenceId>, conferences: map<ConferenceId, Conference>, id: ConferenceId)
    requires OrdersKeys(order, conferences)
    ensures OrdersKeys(Without(order, id), conferences - {id})
  {
    var s := Without(order, id);
    forall i | 0 <= i < |s| ensures s[i] in conferences - {id} {
      assert s[i] in s;
    }
  }

  /** Dropping a participant keeps the table invariant: same keys, same ids, smaller rooms. */
  lemma DropKeepsTable(order: seq<ConferenceId>, conferences: map<ConferenceId, Conference>, id: ConferenceId, sid: Sid)
    requires OrdersKeys(order, conferences) && WithinCapacity(conferences) && id in conferences
    requires forall k :: k in conferences ==> conferences[k].id == k
    ensures var t := conferences[id := Dropped(conferences[id], sid)];
      && t.Keys == conferences.Keys
      && OrdersKeys(order, t) && WithinCapacity(t)
      && (forall k :: k in t ==> t[k].id == k)
  {
    var t := conferences[id := Dropped(conferences[id], sid)];
    assert t.Keys == conferences.Keys;
  }

  /**
   * One record per conference in table order, each its dictionary form:
   * every record decodes to its conference and every conference is listed.
   */
  lemma ListDescribesTable(ids: seq<ConferenceId>, table: map<ConferenceId, Conference>, records: seq<Dict>)
    requires OrdersKeys(ids, table)
    requires |records| == |ids| && forall i :: 0 <= i < |ids| ==> records[i] == ToDict(table[ids[i]])
    ensures |records| == |table|
    ensures forall i :: 0 <= i < |ids| ==> FromDict(records[i]) == Ok(table[ids[i]])
    ensures forall id :: id in table ==> exists i :: 0 <= i < |records| && records[i] == ToDict(table[id])
  {
    OrderLength(ids, table);
    forall id | id in table
      ensures exists i :: 0 <= i < |records| && records[i] == ToDict(table[id])
    {
      var i :| 0 <= i < |ids| && ids[i] == id;
      assert records[i] == ToDict(table[id]);
    }
  }

  /** A join never takes a conference over its capacity: the table invariant survives every join. */
  lemma JoinKeepsCapacity(conferences: map<ConferenceId, Conference>, id: ConferenceId, sid: Sid, username: string)
    requires WithinCapacity(conferences) && Admits(conferences, id)
    ensures WithinCapacity(conferences[id := conferences[id].(participants := conferences[id].participants[sid := username])])
  {
  }
}
