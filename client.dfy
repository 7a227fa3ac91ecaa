/**
 * The demonstration client's session against a running server: create a
 * person, read it back, rename it and delete it. Beyond the client's own calls
 * the session also reads again after the rename, and after the delete reads
 * once more and deletes the same id a second time. Every store operation
 * succeeds and the store generates `generated` for the insert.
 */
module Client {
  import opened Wrappers
  import opened ObjectIds
  import opened PersonService

  /**
   * Runs the session with names `name` and `newName` (the client uses "xyz"
   * and "Changed xyz"), passing the id Create answers to every later call.
   */
  method Session(initial: map<ObjectId, PersonItem>, generated: ObjectId, name: string, newName: string)
    returns (created: Result<Person>, read: Result<Person>, updated: Result<Person>,
             reread: Result<Person>, deleted: Result<string>, afterDelete: Result<Person>,
             deletedAgain: Result<string>)
    requires generated !in initial
    ensures created == Ok(Person(Hex(generated), name))
    ensures read == Ok(Person(Hex(generated), name))
    // the update answers with the document as it was before the update
    ensures updated == Ok(Person(Hex(NilObjectId), name))
    ensures updated.value.id == "000000000000000000000000"
    ensures reread == Ok(Person(Hex(generated), newName))
    // Delete echoes the id it was given
    ensures deleted == Ok(Hex(generated))
    ensures afterDelete == Err(NotFound)
    ensures deletedAgain == Err(NotFound)
  {
    var server := new Server(initial);
    created := server.CreatePerson(CreatePersonRequest(Some(Person("", name))), InsertedObjectId(generated));
    var personId := created.value.id;
    HexRoundTrip(generated);
    assert ObjectIdFromHex(personId) == Some(generated);
    read := server.ReadPerson(ReadPersonRequest(personId), false);
    NilObjectIdHex();
    updated := server.UpdatePerson(UpdatePersonRequest(Some(Person(personId, newName))), false);
    reread := server.ReadPerson(ReadPersonRequest(personId), false);
    deleted := server.DeletePerson(DeletePersonRequest(personId), false);
    afterDelete := server.ReadPerson(ReadPersonRequest(personId), false);
    deletedAgain := server.DeletePerson(DeletePersonRequest(personId), false);
  }
}
