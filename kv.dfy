/**
 The remote key-value store reached over its REST interface.

 `data[k] == v` means the store holds the text `JSON.stringify(v)` under `k`, so a GET
 followed by `JSON.parse(result.result)` yields `v`. Every request the store receives
 is appended to `log`, which lets a handler's contract say that it did not touch the store.
 */
module Kv {
  import opened Json

  /** The answer to a GET: the parsed value, no value under the key, or a non-ok status. */
  datatype Outcome = Found(value: Value) | Absent | NotOk

  /** A request sent to the store. */
  datatype Call = GetCall(key: string) | SetCall(key: string, value: Value)

  /** What a GET of `key` answers when the store's status is `ok`. */
  function Fetch(data: map<string, Value>, key: string, ok: bool): Outcome {
    if !ok then NotOk else if key in data then Found(data[key]) else Absent
  }

  class KvStore {
    var data: map<string, Value>
    var log: seq<Call>

    constructor (initial: map<string, Value>)
      ensures data == initial && log == []
    {
      data := initial;
      log := [];
    }

    /** `fetch(url + "/get/" + key)`: the store answers ok or not; a read changes no data. */
    method Get(key: string, ok: bool) returns (o: Outcome)
      modifies this`log
      ensures log == old(log) + [GetCall(key)]
      ensures o == Fetch(data, key, ok)
    {
      log := log + [GetCall(key)];
      o := Fetch(data, key, ok);
    }

    /** `fetch(url + "/set/" + key, { body: JSON.stringify(value) })`: all or nothing. */
    method Set(key: string, value: Value, ok: bool) returns (saved: bool)
      modifies this
      ensures log == old(log) + [SetCall(key, value)]
      ensures saved == ok
      ensures data == if ok then old(data)[key := value] else old(data)
    {
      log := log + [SetCall(key, value)];
      if ok {
        data := data[key := value];
      }
      saved := ok;
    }
  }
}
