/** Persistent request claims, and the two endpoints that run an effect under one. */
module Idempotency {
  import opened Wrappers

  datatype Response = Response(code: int, json: string)

  /** A record is in processing until it holds the response. */
  datatype Record = Record(kind: string, response: Option<Response>)

  type Records = map<string, Record>

  datatype IdempotencyError = EmptyKeyOrKind | NoActiveClaim

  predicate Processing(records: Records, key: string) {
    key in records && records[key].response == None
  }

  predicate CompletedWith(records: Records, key: string, response: Response) {
    key in records && records[key].response == Some(response)
  }

  function AfterClaim(records: Records, key: string, kind: string): Records {
    if key in records then records else records[key := Record(kind, None)]
  }

  function AfterComplete(records: Records, key: string, response: Response): Records {
    if Processing(records, key) then records[key := records[key].(response := Some(response))] else records
  }

  function AfterRelease(records: Records, key: string): Records {
    if Processing(records, key) then records - {key} else records
  }

  class IdempotencyStore {
    var records: Records

    constructor ()
      ensures records == map[]
    {
      records := map[];
    }

    /** None for a new claim, otherwise the record that is already there. */
    method Claim(key: string, kind: string) returns (r: Result<Option<Record>, IdempotencyError>)
      modifies this
      ensures key == "" || kind == "" ==> r == Err(EmptyKeyOrKind) && records == old(records)
      ensures key != "" && kind != "" ==> records == AfterClaim(old(records), key, kind)
      ensures key != "" && kind != "" ==> r == Ok(if key in old(records) then Some(old(records)[key]) else None)
    {
      if key == "" || kind == "" {
        return Err(EmptyKeyOrKind);
      }
      if key in records {
        return Ok(Some(records[key]));
      }
      records := records[key := Record(kind, None)];
      return Ok(None);
    }

    method Complete(key: string, response: Response) returns (r: Result<(), IdempotencyError>)
      modifies this
      ensures records == AfterComplete(old(records), key, response)
      ensures r.Ok? <==> Processing(old(records), key)
    {
      if key !in records || records[key].response.Some? {
        return Err(NoActiveClaim);
      }
      records := records[key := Record(records[key].kind, Some(response))];
      return Ok(());
    }

    method Release(key: string)
      modifies this
      ensures records == AfterRelease(old(records), key)
    {
      records := map k | k in records && !(k == key && records[k].response == None) :: records[k];
    }
  }

  // ---------- An endpoint ----------

  /** What the guarded operation does: it returns a response, it raises, or the request is one the
      endpoint ignores (and answers at once). */
  datatype Effect = Returns(response: Response) | Throws | Ignored(response: Response)

  datatype Reply = Fresh(response: Response) | Replayed(response: Response) | Busy | Failed | BadRequest

  /** `run_manual_scan`, `complete_work_order`, `receive_event` from claim to reply, undisturbed. The
      effect runs exactly when `ran`; a failed effect leaves the key free for a retry. */
  method Handle(store: IdempotencyStore, key: string, kind: string, effect: Effect) returns (reply: Reply, ran: bool)
    modifies store
    ensures key == "" || kind == "" ==> reply == BadRequest && !ran && store.records == old(store.records)
    ensures key != "" && kind != "" && key in old(store.records) ==>
      !ran && store.records == old(store.records)
      && reply == (match old(store.records)[key].response case Some(r) => Replayed(r) case None => Busy)
    ensures key != "" && kind != "" && key !in old(store.records) ==>
      match effect
      case Returns(r) => ran && reply == Fresh(r) && store.records == old(store.records)[key := Record(kind, Some(r))]
      case Ignored(r) => !ran && reply == Fresh(r) && store.records == old(store.records)[key := Record(kind, Some(r))]
      case Throws => ran && reply == Failed && store.records == old(store.records)
  {
    ran := false;
    var claimed := store.Claim(key, kind);
    if claimed.Err? {
      return BadRequest, false;
    }
    if claimed.value.Some? {
      var previous := claimed.value.value;
      return (match previous.response case Some(r) => Replayed(r) case None => Busy), false;
    }
    ran := !effect.Ignored?;
    if effect.Throws? {
      store.Release(key);
      return Failed, ran;
    }
    var completed := store.Complete(key, effect.response);
    assert completed.Ok?;
    return Fresh(effect.response), ran;
  }
}
