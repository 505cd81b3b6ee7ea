/** The in-process store of `src/idempotency/memory.py`: reservations and finished responses. */
module IdempotencyStore {
  import opened Prelude

  /** Header names and values as the Latin-1 text of their bytes. */
  type HeaderList = seq<(string, string)>

  datatype StoredResponse = StoredResponse(status: int, headers: HeaderList, body: Bytes)

  /** With no response, the key is reserved and its request unfinished. */
  datatype IdempotencyRecord = IdempotencyRecord(fingerprint: string, response: Option<StoredResponse>)

  datatype Entry = Entry(record: IdempotencyRecord, expiresAt: real)

  type Records = map<string, Entry>

  function LiveRecord(records: Records, key: string, now: real): Option<IdempotencyRecord> {
    if key in records && records[key].expiresAt > now then Some(records[key].record) else None
  }

  function Purged(records: Records, key: string, now: real): Records {
    if LiveRecord(records, key, now).None? then records - {key} else records
  }

  function Reserved(records: Records, ttl: real, key: string, fingerprint: string, now: real, later: real):
    (Records, Option<IdempotencyRecord>)
  {
    var existing := LiveRecord(records, key, now);
    if existing.Some? then (records, existing)
    else (records[key := Entry(IdempotencyRecord(fingerprint, None), later + ttl)], None)
  }

  function Completed(records: Records, ttl: real, key: string, record: IdempotencyRecord, now: real): Records {
    records[key := Entry(record, now + ttl)]
  }

  class InMemoryIdempotencyStore {
    const recordTtl: real
    const reservationTtl: real
    var records: Records

    constructor (recordTtl: real, reservationTtl: real)
      ensures this.recordTtl == recordTtl && this.reservationTtl == reservationTtl && records == map[]
    {
      this.recordTtl, this.reservationTtl, records := recordTtl, reservationTtl, map[];
    }

    /** `_live`. */
    method Live(key: string, now: real) returns (r: Option<IdempotencyRecord>)
      modifies this
      ensures r == LiveRecord(old(records), key, now) && records == Purged(old(records), key, now)
    {
      if key !in records {
        return None;
      }
      var entry := records[key];
      if entry.expiresAt <= now {
        records := records - {key};
        return None;
      }
      r := Some(entry.record);
    }

    method Reserve(key: string, fingerprint: string, now: real, later: real) returns (existing: Option<IdempotencyRecord>)
      modifies this
      ensures (records, existing) == Reserved(old(records), reservationTtl, key, fingerprint, now, later)
    {
      existing := Live(key, now);
      if existing.Some? {
        return;
      }
      ghost var entry := Entry(IdempotencyRecord(fingerprint, None), later + reservationTtl);
      assert (old(records) - {key})[key := entry] == old(records)[key := entry];
      records := records[key := Entry(IdempotencyRecord(fingerprint, None), later + reservationTtl)];
    }

    method Complete(key: string, record: IdempotencyRecord, now: real)
      modifies this
      ensures records == Completed(old(records), recordTtl, key, record, now)
    {
      records := records[key := Entry(record, now + recordTtl)];
    }

    method Release(key: string)
      modifies this
      ensures records == old(records) - {key}
    {
      records := records - {key};
    }
  }
}
