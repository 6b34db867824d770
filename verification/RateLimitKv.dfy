/** The KV interface of the rate limiters: reading a text value and writing one with a
    time-to-live, either of which may fail. */
module RateLimitKv {
  import opened Text

  datatype Result<+T> = Ok(value: T) | Err(error: string)

  /** A stored text and the second at which the store stops returning it. */
  datatype Entry = Entry(value: string, expiresAt: nat)

  type Store = map<string, Entry>

  function Get(store: Store, key: string, now: nat): Option<string> {
    if key in store && now < store[key].expiresAt then Some(store[key].value) else None
  }

  function Put(store: Store, key: string, value: string, ttl: nat, now: nat): Store {
    store[key := Entry(value, now + ttl)]
  }

  /** A value is there for exactly its time-to-live, and a put changes no other key. */
  lemma GetAfterPut(store: Store, key: string, value: string, ttl: nat, now: nat, other: string, t: nat)
    ensures Get(Put(store, key, value, ttl, now), key, t) == if t < now + ttl then Some(value) else None
    ensures other != key ==> Get(Put(store, key, value, ttl, now), other, t) == Get(store, other, t)
  {
  }

  datatype PutRecord = PutRecord(key: string, value: string, ttl: nat)

  /** The in-memory store with injected failures and a log of the writes that succeeded. An
      injected error is used up by the call it fails, unless errors are persistent. */
  class KvStore {
    var data: Store
    var puts: seq<PutRecord>
    var getError: Option<string>
    var putError: Option<string>
    var persistentErrors: bool

    constructor ()
      ensures data == map[] && puts == [] && getError == None && putError == None && !persistentErrors
    {
      data, puts, getError, putError, persistentErrors := map[], [], None, None, false;
    }

    method GetText(key: string, now: nat) returns (r: Result<Option<string>>)
      modifies this`getError
      ensures r == match old(getError) { case Some(e) => Err(e) case None => Ok(Get(data, key, now)) }
      ensures getError == if persistentErrors then old(getError) else None
    {
      if getError.Some? {
        r := Err(getError.value);
        if !persistentErrors {
          getError := None;
        }
        return;
      }
      r := Ok(Get(data, key, now));
    }

    method PutWithTtl(key: string, value: string, ttl: nat, now: nat) returns (r: Result<()>)
      modifies this`data, this`puts, this`putError
      ensures r == match old(putError) { case Some(e) => Err(e) case None => Ok(()) }
      ensures r.Ok? ==> data == Put(old(data), key, value, ttl, now)
      ensures r.Ok? ==> puts == old(puts) + [PutRecord(key, value, ttl)]
      ensures r.Err? ==> data == old(data) && puts == old(puts)
      ensures putError == if persistentErrors then old(putError) else None
    {
      if putError.Some? {
        r := Err(putError.value);
        if !persistentErrors {
          putError := None;
        }
        return;
      }
      puts := puts + [PutRecord(key, value, ttl)];
      data := Put(data, key, value, ttl, now);
      r := Ok(());
    }
  }
}
