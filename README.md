# Person CRUD service: request-handling layer

This project models the request-handling layer of a small gRPC service. The
service manages `Person` records (an id and a name) in one MongoDB collection.
It has four unary handlers, `CreatePerson`, `ReadPerson`, `UpdatePerson` and
`DeletePerson`. Each handler decodes the wire identifier, runs one store
operation and turns the outcome into a response or a gRPC status code
(InvalidArgument, NotFound or Internal).

Files:

- `wrappers.dfy` (module `Wrappers`): the `Option` type. It models nil message fields and decoding that can fail.
- `object_id.dfy` (module `ObjectIds`): the 12-byte ObjectId of the BSON specification and its Base 16 text form (section 8 of RFC 4648). Decoding accepts exactly 24 hexadecimal characters in either case. Encoding emits 24 lowercase characters.
- `server.dfy` (module `PersonService`): the protobuf messages with their nil-safe getters, the `personItem` record, and the class `Server`. Its field `docs` is the shared collection, a map from a document's `_id` to its decoded fields. The four handlers are methods on it.
- `client.dfy` (module `Client`): the demonstration client's create, read, update, delete session, run against a fresh `Server`.

Things the handlers cannot observe become parameters:

- whether a store operation fails (`storeFails`);
- what `InsertOne` reports (`InsertOutcome`), including the id the driver generated for the new document. That id must not already be in the collection.

Each handler runs atomically. A failed store operation changes nothing.

Where the design description and the code disagree, the model follows the code:

- `ReadPerson` maps every lookup failure, store errors included, to NotFound, not Internal.
- `UpdatePerson` answers with the document as it was before the update. `FindOneAndUpdate` is called without a return-document option, so the store returns the pre-update document, not the post-update one.
- The response id of `UpdatePerson` is the decoded `ID` field of that returned document, not the request id. Create never sets that field, so for documents Create wrote it holds the zero ObjectId. The `bson: "..."` struct tags have a space after the colon, so they do not map `ID` to `_id`.
- `DeletePerson` echoes the request string verbatim. `ReadPerson` answers with the lowercase canonical form.

## Model

| member | source | states |
|---|---|---|
| ObjectIds.ObjectIdFromHex | server.go:65 | decoding succeeds exactly when the string is 24 hexadecimal characters of either case |
| ObjectIds.Hex | server.go:56 | the encoded form is 24 lowercase hexadecimal characters, byte i giving characters 2i (high nibble) and 2i+1 (low nibble) |
| ObjectIds.DecodeBytes | server.go:100 | hex decoding succeeds exactly on an even-length string of hex digits, with one byte per digit pair |
| ObjectIds.EncodeBytes | server.go:83 | hex encoding gives two lowercase digits per byte in order, the high nibble's digit first, from the alphabet `0123456789abcdef` |
| ObjectIds.HexValue | server.go:132 | a digit's value is below 16, and the canonical digit for that value is the character lowercased |
| ObjectIds.DecodeEncodeBytes | server.go:56 | decoding the hex encoding of any byte string gives the bytes back |
| ObjectIds.EncodeDecodeBytes | server.go:83 | re-encoding decoded bytes gives the lowercase form of the decoded string |
| ObjectIds.HexRoundTrip | server.go:54-58 | decoding the hex form of any ObjectId yields that ObjectId, so Read, Update and Delete accept the id Create returns |
| ObjectIds.HexOfDecoded | server.go:81-86 | the id Read answers with (the decoded id re-encoded) is the lowercase form of the request id |
| ObjectIds.NilObjectIdHex | server.go:123 | the zero ObjectId, which Create leaves in the `ID` field, is written as 24 `0` digits |
| ObjectIds.HexInjective | server.go:56 | distinct ObjectIds have distinct hex forms |
| ObjectIds.DecodeIgnoresCase | server.go:65-71 | a string and its lowercase form decode to the same result, whether that is success or failure |
| PersonService.Server.constructor | server.go:23 | the server starts over the given collection |
| PersonService.Server.CreatePerson | server.go:33-60 | only the request's name is stored (under the zero `ID`); the answer is the generated id in hex with the request's name; exactly one key is added; a failed insert or a non-ObjectId inserted id gives Internal and leaves the collection unchanged |
| PersonService.Server.ReadPerson | server.go:62-88 | a malformed id gives InvalidArgument; a missing document or a store error gives NotFound and never Internal; on success the stored name comes back with the lowercase form of the request id |
| PersonService.Server.UpdatePerson | server.go:97-128 | a malformed id gives InvalidArgument; a missing document or a store error gives NotFound; neither changes the collection; otherwise only that document's name changes (empty names included), and the answer is the pre-update document's id field and old name; the set of keys never changes |
| PersonService.Server.DeletePerson | server.go:130-154 | a malformed id gives InvalidArgument; a store error gives Internal; no match gives NotFound; none of these changes the collection; otherwise exactly that key is removed and the request string is echoed verbatim |
| Client.Session | client.go:26-72 | create then read returns the created name under the created id; update answers with the old name and the zero id (`000000000000000000000000`), and an extra read after it sees the new name; delete echoes the id; an extra read and a second delete afterwards both give NotFound |

## Left out

- `main` (server.go:155-201): connecting to MongoDB, listening on TCP, registering the gRPC service and reflection, serving on a goroutine, waiting for SIGINT, and the stop, close and disconnect teardown. This is process lifecycle, I/O and concurrency.
- The error message texts passed to `status.Errorf`. They embed driver error strings that are not visible here. Only the status code is modelled.
- `fmt.Println` logging and `context.Context` handling: no observable effect on results.
- BSON encoding and decoding and the struct-tag field mapping: foreign library behaviour. A document is modelled by its decoded fields (`PersonItem`). The decoded `ID` of documents already in the collection is abstract and is not tied to the document's key. Documents Create writes hold the zero ObjectId there, the value Create leaves in the field.
- Documents that exist but fail to decode into `personItem` cannot be represented in `docs`. For such a document the source answers NotFound to Read (server.go:75) and to Update (server.go:115), and for Update the `$set` of server.go:114 has already been applied by then; the model does not capture that write.
- Concurrent handlers, and races between Update and Delete on the same id. Each handler is modelled as atomic.
- A store error that strikes after a write took effect. A failed store operation is modelled as changing nothing.
- Documents whose `_id` is not an ObjectId. They cannot be reached by the ObjectId filters the handlers use, so they are not in `docs`.
- client.go's dialing, printing and fatal exits are left out. Its calls appear as `Client.Session`.
