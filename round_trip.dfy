/**
 * What the two ends of the socket.io link agree on: the records the server
 * sends are the ones the client decodes back into the same conferences.
 */
module RoundTrip {
  import opened Common
  import opened Protocol
  import RoomServer
  import ConferenceClient

  /**
   * A `conference_list_response` built as the server builds it (one record
   * per live conference, in table order) decodes on the client to exactly the
   * server's conferences, in the same order.
   */
  lemma ListRoundTrip(order: seq<ConferenceId>, conferences: map<ConferenceId, Conference>, records: seq<Dict>)
    requires OrdersKeys(order, conferences)
    requires |records| == |order|
    requires forall i :: 0 <= i < |order| ==> FromDict(records[i]) == Ok(conferences[order[i]])
    ensures |ConferenceClient.ListResult(map["conferences" := records])| == |conferences|
    ensures forall i :: 0 <= i < |order| ==>
      ConferenceClient.ListResult(map["conferences" := records])[i] == conferences[order[i]]
  {
    OrderLength(order, conferences);
    assert ConferenceClient.DecodeAll(records).Some?;
  }

  /**
   * A packet that arrives on one socket reaches every other member of the
   * conference, and never the socket it came from, as long as the conference
   * exists on the server.
   */
  lemma MediaReachesOthers(conferences: map<ConferenceId, Conference>, sender: RoomServer.Sid, packet: RoomServer.MediaPacket, member: RoomServer.Sid)
    requires packet.conferenceId in conferences
    requires member in conferences[packet.conferenceId].participants && member != sender
    ensures var out := RoomServer.Relay("video", conferences, sender, packet);
      |out| == 1 && member in out[0].scope.sids && sender !in out[0].scope.sids && out[0].payload == RoomServer.Media(packet)
  {
  }
}
