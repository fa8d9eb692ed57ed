/** `chrome.storage.local`, of which the engine only calls `set`. */
module Storage {
  import opened Records

  /** One successful `set({ [key]: value })`. */
  datatype Write = Write(key: string, value: Enhanced)

  /** The extension's local store. A `set` for a key in `rejects` is
      rejected (quota exceeded, extension context gone);
      the store keeps, as a ghost log, every write it accepted, in order. */
  class LocalStorage {
    const rejects: set<string>
    ghost var log: seq<Write>

    constructor (rejects: set<string>)
      ensures this.rejects == rejects && log == []
    {
      this.rejects := rejects;
      log := [];
    }

    /** `await chrome.storage.local.set({ [key]: value })`; false when it rejects. */
    method Set(key: string, value: Enhanced) returns (ok: bool)
      modifies this
      ensures ok == (key !in rejects)
      ensures log == if ok then old(log) + [Write(key, value)] else old(log)
    {
      ok := key !in rejects;
      if ok {
        log := log + [Write(key, value)];
      }
    }
  }
}
