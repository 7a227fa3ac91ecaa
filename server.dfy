/**
 * The request-handling layer of the Person service: the four unary gRPC
 * handlers over one MongoDB collection of person documents. Each handler
 * decodes the wire identifier, performs a single store operation and turns the
 * outcome into a response or a gRPC status code.
 *
 * The collection is the map `docs` from a document's `_id` to the fields the
 * handlers decode from it. A store operation that fails is passed in as a flag,
 * and the outcome of an insert (with the identifier the driver generated) as a
 * parameter; each handler runs atomically.
 */
module PersonService {
  import opened Wrappers
  import opened ObjectIds

  /** The gRPC status codes the handlers produce. */
  datatype Code = InvalidArgument | NotFound | Internal

  /** A handler's outcome: a response, or an error status with that code. */
  datatype Result<T> = Ok(value: T) | Err(code: Code)

  /** The `Person` protobuf message. */
  datatype Person = Person(id: string, name: string)

  /** A `Person` message field: None when the field is nil; the getters below read nil as "". */
  type PersonField = Option<Person>

  function GetId(p: PersonField): string {
    if p.Some? then p.value.id else ""
  }

  function GetName(p: PersonField): string {
    if p.Some? then p.value.name else ""
  }

  datatype CreatePersonRequest = CreatePersonRequest(person: PersonField)
  datatype ReadPersonRequest = ReadPersonRequest(personId: string)
  datatype UpdatePersonRequest = UpdatePersonRequest(person: PersonField)
  datatype DeletePersonRequest = DeletePersonRequest(personId: string)

  /**
   * The `personItem` record: the fields of a stored document as the handlers
   * decode them. `id` is whatever the document's `ID` field decodes to, which
   * the model does not tie to the document's key.
   */
  datatype PersonItem = PersonItem(id: ObjectId, name: string)

  /** What `InsertOne` reports: an error, or the `_id` of the inserted document. */
  datatype InsertOutcome =
    | InsertFailed
    | InsertedObjectId(insertedId: ObjectId)
    | InsertedOtherId

  class Server {
    /** The `collection` the handlers share: documents by their `_id`. */
    var docs: map<ObjectId, PersonItem>

    constructor (initial: map<ObjectId, PersonItem>)
      ensures docs == initial
    {
      docs := initial;
    }

    /**
     * Inserts a `personItem` holding only the request's name (its `ID` left at
     * the zero ObjectId; any id in the request is ignored) and answers with the
     * generated id in hex and the request's name. A failed insert, or an
     * inserted id that is not an ObjectId, gives Internal; a document with a
     * non-ObjectId `_id` is out of reach of every ObjectId filter, so the
     * ObjectId-keyed collection stays as it was.
     */
    method CreatePerson(req: CreatePersonRequest, insert: InsertOutcome) returns (r: Result<Person>)
      requires insert.InsertedObjectId? ==> insert.insertedId !in docs
      modifies this
      ensures insert.InsertedObjectId? ==>
        && r == Ok(Person(Hex(insert.insertedId), GetName(req.person)))
        && docs == old(docs)[insert.insertedId := PersonItem(NilObjectId, GetName(req.person))]
        && docs.Keys == old(docs).Keys + {insert.insertedId}
        && |docs| == |old(docs)| + 1
      ensures !insert.InsertedObjectId? ==> r == Err(Internal) && docs == old(docs)
    {
      var data := PersonItem(NilObjectId, GetName(req.person));
      match insert
      case InsertFailed =>
        r := Err(Internal);
      case InsertedOtherId =>
        r := Err(Internal);
      case InsertedObjectId(oid) =>
        docs := docs[oid := data];
        r := Ok(Person(Hex(oid), GetName(req.person)));
    }

    /**
     * Looks up the document with the decoded id. A malformed id gives
     * InvalidArgument; any lookup failure, a missing document or a store error,
     * gives NotFound and never Internal. The response id is the decoded id
     * re-encoded, i.e. the lowercase form of the request's id.
     */
    method ReadPerson(req: ReadPersonRequest, storeFails: bool) returns (r: Result<Person>)
      ensures !IsObjectIdHex(req.personId) ==> r == Err(InvalidArgument)
      ensures IsObjectIdHex(req.personId) ==>
        var oid := ObjectIdFromHex(req.personId).value;
        r == if !storeFails && oid in docs then Ok(Person(Hex(oid), docs[oid].name)) else Err(NotFound)
      ensures r.Ok? ==> r.value.id == Lower(req.personId)
      ensures r != Err(Internal)
    {
      var parsed := ObjectIdFromHex(req.personId);
      if parsed.None? {
        return Err(InvalidArgument);
      }
      var oid := parsed.value;
      if storeFails || oid !in docs {
        return Err(NotFound);
      }
      var data := docs[oid];
      HexOfDecoded(req.personId);
      r := Ok(Person(Hex(oid), data.name));
    }

    /**
     * Sets the name of the document with the decoded id, leaving every other
     * document as it was; empty names are accepted. A malformed id gives
     * InvalidArgument, a missing document or a store error gives NotFound, and
     * neither changes the collection. The response is the document the store
     * returns, which is the one before the update: its own id field and its old
     * name, not the request's.
     */
    method UpdatePerson(req: UpdatePersonRequest, storeFails: bool) returns (r: Result<Person>)
      modifies this
      ensures !IsObjectIdHex(GetId(req.person)) ==> r == Err(InvalidArgument) && docs == old(docs)
      ensures IsObjectIdHex(GetId(req.person)) ==>
        var oid := ObjectIdFromHex(GetId(req.person)).value;
        if !storeFails && oid in old(docs) then
          && r == Ok(Person(Hex(old(docs)[oid].id), old(docs)[oid].name))
          && docs == old(docs)[oid := old(docs)[oid].(name := GetName(req.person))]
        else
          r == Err(NotFound) && docs == old(docs)
      ensures docs.Keys == old(docs).Keys
    {
      var parsed := ObjectIdFromHex(GetId(req.person));
      if parsed.None? {
        return Err(InvalidArgument);
      }
      var oid := parsed.value;
      if storeFails || oid !in docs {
        return Err(NotFound);
      }
      var before := docs[oid];
      docs := docs[oid := before.(name := GetName(req.person))];
      r := Ok(Person(Hex(before.id), before.name));
    }

    /**
     * Removes the document with the decoded id. A malformed id gives
     * InvalidArgument, a store error Internal, and no matching document
     * (zero deleted) NotFound, all without change. On success the request's id
     * string is echoed back verbatim.
     */
    method DeletePerson(req: DeletePersonRequest, storeFails: bool) returns (r: Result<string>)
      modifies this
      ensures !IsObjectIdHex(req.personId) ==> r == Err(InvalidArgument) && docs == old(docs)
      ensures IsObjectIdHex(req.personId) ==>
        var oid := ObjectIdFromHex(req.personId).value;
        if storeFails then r == Err(Internal) && docs == old(docs)
        else if oid !in old(docs) then r == Err(NotFound) && docs == old(docs)
        else r == Ok(req.personId) && docs == old(docs) - {oid}
    {
      var parsed := ObjectIdFromHex(req.personId);
      if parsed.None? {
        return Err(InvalidArgument);
      }
      var oid := parsed.value;
      if storeFails {
        return Err(Internal);
      }
      var deletedCount := if oid in docs then 1 else 0;
      docs := docs - {oid};
      if deletedCount == 0 {
        return Err(NotFound);
      }
      r := Ok(req.personId);
    }
  }
}
