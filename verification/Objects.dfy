/** The values both tiers store (internal/cache/meta.go). */
module Objects {

  newtype byte = x: int | 0 <= x < 256

  datatype Option<+T> = None | Some(value: T)

  /** Metadata of a cached object. `tier` is a write-time placement hint and is never persisted. */
  datatype ObjectMeta = ObjectMeta(
    key: string,
    size: int,
    contentType: string,
    etag: string,
    lastModified: string,
    contentEncoding: string,
    vary: string,
    status: int,
    forcedPrivate: bool,
    tier: string)

  /** What a hit hands to the server: metadata and body. */
  datatype Object = Object(meta: ObjectMeta, body: seq<byte>)
}
