/**
 The vocabulary of the telemetry store: digests, the four kinds of stored object, the documents
 they parse to, and the parts of the environment that stay uninterpreted.
*/
module Types {

  datatype Option<+T> = None | Some(value: T)

  newtype byte = x: int | 0 <= x < 256

  type Bytes = seq<byte>

  type Time = int

  /** A digest algorithm. The three registered ones have an implementation, any other name has not. */
  datatype Algorithm = SHA256 | SHA384 | SHA512 | Unregistered(name: string)
  {
    predicate Available() {
      !Unregistered?
    }
  }

  /** The algorithm used internally to recognise equal data. */
  const CANONICAL: Algorithm := SHA256

  /** `algorithm:encoded`, as in "Digests" of the OCI image specification's content descriptors. */
  datatype Digest = Digest(alg: Algorithm, encoded: string)

  /** The object types, one primary table each. */
  datatype Kind = Blob | Bottle | Manifest | Event

  /** A bottle's source: a URI, and the bottle digest when the URI names a bottle. */
  datatype Source = Source(uri: string, bottle: Option<Digest>)

  datatype BottleDoc = BottleDoc(
    sources: seq<Source>,
    labels: map<string, string>,
    artifacts: seq<Digest>,
    parts: seq<Digest>,
    deprecates: seq<Digest>)

  datatype ManifestDoc = ManifestDoc(config: Digest, layers: seq<Digest>)

  datatype EventDoc = EventDoc(manifest: Digest, action: string, repository: string, username: string)

  /** What decoding and then validating raw bytes yields. */
  datatype Parsed<+T> = Parsed(doc: T) | Malformed | Invalid

  /**
   The environment of the store. Hashing and decoding are arbitrary functions, and `universe` marks
   the byte strings that are ever submitted, so that freedom from collisions can be assumed of
   those alone.
  */
  datatype World = World(
    hash: (Algorithm, Bytes) -> string,
    parseBottle: Bytes -> Parsed<BottleDoc>,
    parseManifest: Bytes -> Parsed<ManifestDoc>,
    parseEvent: Bytes -> Parsed<EventDoc>,
    universe: Bytes -> bool)
  {
    function DigestOf(alg: Algorithm, bytes: Bytes): Digest {
      Digest(alg, hash(alg, bytes))
    }

    ghost predicate NoCollisions() {
      forall alg, b0, b1 | universe(b0) && universe(b1) && DigestOf(alg, b0) == DigestOf(alg, b1) :: b0 == b1
    }
  }
}
