/** The record document kept in node payloads (its Go source is not part of
    this model; the operations below are the ones connection.go and admin.go
    call), and the payload a node holds. */
module Records {
  import opened Common

  datatype Record = Record(
    id: string,
    simpleFields: map<string, string>,
    mapFields: map<string, map<string, string>>,
    listFields: map<string, seq<string>>)

  /** A node's payload: nothing, an opaque string written as is, or a
      marshalled record.  Bytes are not modelled. */
  datatype Payload = Empty | Raw(text: string) | Rec(record: Record)

  /** `NewRecord(id)`: a record with the given id and no fields. */
  function NewRecord(id: string): (r: Record)
    ensures r.id == id
    ensures r.simpleFields == map[] && r.mapFields == map[] && r.listFields == map[]
  {
    Record(id, map[], map[], map[])
  }

  /** `Marshal`: the payload a record is written as; decoding it gives the
      record back. */
  function Marshal(r: Record): (p: Payload)
    ensures Decode(p) == Ok(r)
  {
    Rec(r)
  }

  /** `NewRecordFromBytes`: only a marshalled record decodes; an empty or
      opaque payload is malformed. */
  function Decode(p: Payload): (res: Result<Record>)
    ensures res.Ok? <==> p.Rec?
    ensures res.Err? ==> res.error == Malformed
  {
    match p
    case Rec(r) => Ok(r)
    case _ => Err(Malformed)
  }

  /** `SetSimpleField(key, value)`: the field reads `value` afterwards, and
      nothing else of the record changes. */
  function SetSimpleField(r: Record, key: string, value: string): (r': Record)
    ensures r'.id == r.id && r'.mapFields == r.mapFields && r'.listFields == r.listFields
    ensures r'.simpleFields.Keys == r.simpleFields.Keys + {key}
    ensures r'.simpleFields[key] == value
    ensures forall k :: k in r.simpleFields && k != key ==> r'.simpleFields[k] == r.simpleFields[k]
  {
    r.(simpleFields := r.simpleFields[key := value])
  }

  /** `GetSimpleField(key)`: the stored value, or nil (`None`). */
  function GetSimpleField(r: Record, key: string): (v: Option<string>)
    ensures v.Some? <==> key in r.simpleFields
    ensures v.Some? ==> v.value == r.simpleFields[key]
  {
    if key in r.simpleFields then Some(r.simpleFields[key]) else None
  }

  /** `SetMapField(key, property, value)`: creates the inner map when it is
      missing and sets one property in it; every other property, every other
      map field and every other part of the record stay as they were. */
  function SetMapField(r: Record, key: string, property: string, value: string): (r': Record)
    ensures r'.id == r.id && r'.simpleFields == r.simpleFields && r'.listFields == r.listFields
    ensures r'.mapFields.Keys == r.mapFields.Keys + {key}
    ensures forall k :: k in r.mapFields && k != key ==> r'.mapFields[k] == r.mapFields[k]
    ensures property in r'.mapFields[key] && r'.mapFields[key][property] == value
    ensures key in r.mapFields ==> r'.mapFields[key].Keys == r.mapFields[key].Keys + {property}
    ensures key !in r.mapFields ==> r'.mapFields[key].Keys == {property}
    ensures key in r.mapFields ==>
      forall q :: q in r.mapFields[key] && q != property ==> r'.mapFields[key][q] == r.mapFields[key][q]
  {
    var inner := if key in r.mapFields then r.mapFields[key] else map[];
    r.(mapFields := r.mapFields[key := inner[property := value]])
  }

  /** `RemoveMapField(key)`: the map field is gone and nothing else changes. */
  function RemoveMapField(r: Record, key: string): (r': Record)
    ensures r'.id == r.id && r'.simpleFields == r.simpleFields && r'.listFields == r.listFields
    ensures r'.mapFields.Keys == r.mapFields.Keys - {key}
    ensures forall k :: k in r'.mapFields ==> r'.mapFields[k] == r.mapFields[k]
  {
    r.(mapFields := r.mapFields - {key})
  }

  /** The lookup of `GetSimpleFieldValueByKey`: "" when the field is missing
      (a nil field map is an empty one here), the stored value otherwise. */
  function SimpleValue(r: Record, key: string): (v: string)
    ensures GetSimpleField(r, key).Some? ==> v == GetSimpleField(r, key).value
    ensures GetSimpleField(r, key).None? ==> v == ""
  {
    if key in r.simpleFields then r.simpleFields[key] else ""
  }

  /** Reading back a simple field after setting it gives the value set, and
      setting one key leaves the reading of every other key alone. */
  lemma SimpleValueAfterSet(r: Record, key: string, value: string, other: string)
    ensures SimpleValue(SetSimpleField(r, key, value), key) == value
    ensures other != key ==> SimpleValue(SetSimpleField(r, key, value), other) == SimpleValue(r, other)
  {
  }
}
