/**
 * The conference record shared by the server and the client, and its
 * dictionary form: the form in which it travels in socket.io payloads.
 */
module Protocol {
  import opened Common

  type ClientId = string
  type ConferenceId = string

  /** Capacity of a conference unless its record says otherwise. */
  const DefaultMaxParticipants: int := 10

  /** A conference: `participants` maps a client's socket id to its display name. */
  datatype Conference = Conference(
    id: ConferenceId,
    name: string,
    creatorId: ClientId,
    participants: map<ClientId, string>,
    maxParticipants: int := DefaultMaxParticipants)

  /** The values a conference's dictionary form holds. */
  datatype Value = Str(s: string) | Int(i: int) | Names(names: map<string, string>)

  type Dict = map<string, Value>

  /** The keys of the dictionary form: the record's attribute names. */
  const FieldNames: set<string> := {"id", "name", "creator_id", "participants", "max_participants"}

  /** The keys without a default: `Conference(**d)` needs each of them. */
  const RequiredNames: set<string> := {"id", "name", "creator_id", "participants"}

  /**
   * Why `Conference(**d)` refuses a dictionary: a key that is not a field, a
   * field without a default that is missing, or a value of the wrong kind.
   */
  datatype DictError = UnexpectedField | MissingField | IllTyped

  /** Every present field holds a value of the field's kind. */
  predicate WellTyped(d: Dict)
  {
    && ("id" in d ==> d["id"].Str?)
    && ("name" in d ==> d["name"].Str?)
    && ("creator_id" in d ==> d["creator_id"].Str?)
    && ("participants" in d ==> d["participants"].Names?)
    && ("max_participants" in d ==> d["max_participants"].Int?)
  }

  /** The attribute dictionary of a conference. */
  function ToDict(c: Conference): (d: Dict)
    ensures d.Keys == FieldNames
    ensures WellTyped(d)
    ensures FromDict(d) == Ok(c)
  {
    map[
      "id" := Str(c.id),
      "name" := Str(c.name),
      "creator_id" := Str(c.creatorId),
      "participants" := Names(c.participants),
      "max_participants" := Int(c.maxParticipants)
    ]
  }

  /** Builds a conference from its keyword arguments; `max_participants` may be omitted. */
  function FromDict(d: Dict): (r: Result<Conference, DictError>)
    ensures r.Ok? <==> d.Keys <= FieldNames && RequiredNames <= d.Keys && WellTyped(d)
    ensures !(d.Keys <= FieldNames) ==> r == Err(UnexpectedField)
    ensures r.Ok? && "max_participants" !in d ==> r.value.maxParticipants == DefaultMaxParticipants
  {
    if !(d.Keys <= FieldNames) then Err(UnexpectedField)
    else if !(RequiredNames <= d.Keys) then Err(MissingField)
    else if !WellTyped(d) then Err(IllTyped)
    else
      var c := Conference(d["id"].s, d["name"].s, d["creator_id"].s, d["participants"].names);
      if "max_participants" in d then
        Ok(c.(maxParticipants := d["max_participants"].i))
      else Ok(c)
  }

  /** A dictionary holding exactly the five fields is the dictionary form of the conference built from it. */
  lemma ToDictFromDict(d: Dict)
    requires d.Keys == FieldNames && WellTyped(d)
    ensures FromDict(d).Ok? && ToDict(FromDict(d).value) == d
  {
    assert ToDict(FromDict(d).value).Keys == d.Keys;
  }

  /** A record whose `max_participants` is absent takes the default capacity. */
  lemma DefaultCapacity(id: ConferenceId, name: string, creator: ClientId, names: map<ClientId, string>)
    ensures FromDict(map["id" := Str(id), "name" := Str(name), "creator_id" := Str(creator), "participants" := Names(names)])
         == Ok(Conference(id, name, creator, names, 10))
  {
    var d := map["id" := Str(id), "name" := Str(name), "creator_id" := Str(creator), "participants" := Names(names)];
    assert d.Keys == RequiredNames;
  }
}
