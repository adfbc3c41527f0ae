/** `DiskCache` of the helpers module: one pickle file per text, named by
    the md5 digest of the text. The digest is a parameter (any function of
    the text), the directory is a map from key to file, and pickling is
    abstracted to storing the value itself. */
module Cache {

  import opened Wrappers
  import opened Text

  /** A cache file either unpickles to a value or raises when loaded. */
  datatype Entry<V> = Stored(value: V) | Unreadable

  datatype DiskCache<V> = DiskCache(files: map<String, Entry<V>>)

  /** How the write in `set` went: the file was written; `open` failed, so
      nothing was touched; or `open` truncated the file and `pickle.dump`
      then failed, leaving a file that no longer loads. */
  datatype WriteOutcome = Written | OpenFailed | DumpFailed

  /** `get(text)`: the stored value, or `None` when the file is missing or
      cannot be loaded; the error is swallowed. */
  function Get<V>(cache: DiskCache<V>, digest: String -> String, text: String): (r: Option<V>)
    ensures r.Some? <==> (digest(text) in cache.files && cache.files[digest(text)].Stored?)
    ensures r.Some? ==> cache.files[digest(text)] == Stored(r.value)
  {
    var key := digest(text);
    if key in cache.files then
      match cache.files[key]
      case Stored(v) => Some(v)
      case Unreadable => None
    else None
  }

  /** `set(text, value)`: writes the file named by the text's digest; a
      failure is swallowed. Only that one file can change. */
  function Set<V>(cache: DiskCache<V>, digest: String -> String, text: String, value: V, write: WriteOutcome): (r: DiskCache<V>)
    ensures write == Written ==> digest(text) in r.files && r.files[digest(text)] == Stored(value)
    ensures write == OpenFailed ==> r == cache
    ensures write == DumpFailed ==> digest(text) in r.files && r.files[digest(text)] == Unreadable
    ensures forall k :: k != digest(text) ==> (k in r.files <==> k in cache.files)
    ensures forall k :: k != digest(text) && k in cache.files ==> r.files[k] == cache.files[k]
  {
    match write
    case Written => DiskCache(cache.files[digest(text) := Stored(value)])
    case OpenFailed => cache
    case DumpFailed => DiskCache(cache.files[digest(text) := Unreadable])
  }

  /** After a successful `set(t, v)`, `get(t)` returns `v`. */
  lemma {:induction false} GetAfterSet<V>(cache: DiskCache<V>, digest: String -> String, text: String, value: V)
    ensures Get(Set(cache, digest, text, value, Written), digest, text) == Some(value)
  {
  }

  /** A second successful `set` with the same text wins. */
  lemma {:induction false} LastWriteWins<V>(cache: DiskCache<V>, digest: String -> String, text: String, v1: V, v2: V)
    ensures Set(Set(cache, digest, text, v1, Written), digest, text, v2, Written)
            == Set(cache, digest, text, v2, Written)
  {
  }

  /** A `set` leaves `get` of every text with a different key unchanged; a
      failed `set` changes nothing that `get` can see except for its own
      key, which then reads as missing. */
  lemma {:induction false} SetIsolated<V>(cache: DiskCache<V>, digest: String -> String, text: String, other: String, value: V, write: WriteOutcome)
    requires digest(other) != digest(text)
    ensures Get(Set(cache, digest, text, value, write), digest, other) == Get(cache, digest, other)
  {
  }

  lemma {:induction false} FailedSetReadsMissing<V>(cache: DiskCache<V>, digest: String -> String, text: String, value: V)
    ensures Get(Set(cache, digest, text, value, DumpFailed), digest, text) == None
  {
  }

  /** The key is a function of the text alone: two texts with the same
      digest share one file, so the last write to either is what both
      read. */
  lemma {:induction false} SharedKey<V>(cache: DiskCache<V>, digest: String -> String, t1: String, t2: String, value: V)
    requires digest(t1) == digest(t2)
    ensures Get(Set(cache, digest, t1, value, Written), digest, t2) == Some(value)
  {
  }
}
