/** What `src/middleware/idempotency.py` does with the two streams of a request: buffering the one
    coming in without damaging it, capturing the one going out, and answering a repeated key. */
module IdempotencyMiddleware {
  import opened Prelude
  import opened IdempotencyStore

  const KEY_HEADER := "idempotency-key"
  const REPLAYED_HEADER := "idempotency-replayed"

  // The request stream.

  datatype Incoming = Request(body: Bytes, more: bool) | Disconnect

  predicate Ends(m: Incoming) {
    m.Disconnect? || !m.more
  }

  function BodyOf(messages: seq<Incoming>): Bytes {
    if messages == [] then []
    else
      var last := messages[|messages| - 1];
      BodyOf(messages[..|messages| - 1]) + (if last.Request? then last.body else [])
  }

  /** `_buffer_request`, reading from `stream`, which ends sooner or later: reading stops after the
      message that ends the body, or the first that takes it over the limit, and nothing is lost:
      what was buffered and what the socket still holds make up the stream. */
  method BufferRequest(stream: seq<Incoming>, limit: nat)
    returns (buffered: seq<Incoming>, body: Bytes, truncated: bool, rest: seq<Incoming>)
    requires exists i :: 0 <= i < |stream| && Ends(stream[i])
    ensures buffered != [] && buffered <= stream && rest == stream[|buffered|..]
    ensures forall i :: 0 <= i < |buffered| - 1 ==> !Ends(buffered[i])
    ensures truncated <==> |BodyOf(buffered)| > limit
    ensures body == if truncated then [] else BodyOf(buffered)
    ensures !truncated ==> Ends(buffered[|buffered| - 1])
    ensures |BodyOf(buffered[..|buffered| - 1])| <= limit
  {
    buffered, body, rest := [], [], stream;
    ghost var end :| 0 <= end < |stream| && Ends(stream[end]);
    while true
      invariant |buffered| <= end && buffered == stream[..|buffered|] && rest == stream[|buffered|..]
      invariant body == BodyOf(buffered) && |body| <= limit
      invariant forall i :: 0 <= i < |buffered| ==> !Ends(buffered[i])
      decreases end - |buffered|
    {
      var message := rest[0];
      ghost var before := buffered;
      buffered, rest := buffered + [message], rest[1..];
      assert buffered[..|buffered| - 1] == before;
      if message.Disconnect? {
        return buffered, body, false, rest;
      }
      body := body + message.body;
      if |body| > limit {
        return buffered, [], true, rest;
      }
      if !message.more {
        return buffered, body, false, rest;
      }
    }
  }

  /** `_ReplayReceive`, over what is still in the socket. */
  class ReplayReceive {
    var pending: seq<Incoming>
    var socket: seq<Incoming>

    constructor (buffered: seq<Incoming>, socket: seq<Incoming>)
      ensures Remaining() == buffered + socket
    {
      pending, this.socket := buffered, socket;
    }

    function Remaining(): seq<Incoming>
      reads this
    {
      pending + socket
    }

    method Receive() returns (m: Incoming)
      requires Remaining() != []
      modifies this
      ensures [m] + Remaining() == old(Remaining())
    {
      if pending != [] {
        m := pending[0];
        pending := pending[1..];
      } else {
        m := socket[0];
        socket := socket[1..];
      }
    }
  }

  // The response stream.

  datatype Outgoing = Start(status: int, headers: HeaderList) | Body(body: Bytes, more: bool) | Other

  function Sent(m: Outgoing, key: string): Outgoing {
    if m.Start? then m.(headers := m.headers + [(KEY_HEADER, key)]) else m
  }

  function ResponseBody(parts: seq<Outgoing>): Bytes {
    if parts == [] then []
    else
      var last := parts[|parts| - 1];
      ResponseBody(parts[..|parts| - 1]) + (if last.Body? then last.body else [])
  }

  /** The status and headers of the last start, or what `_execute` assumes before there is one. */
  function Opening(parts: seq<Outgoing>): (int, HeaderList) {
    if parts == [] then (500, [])
    else
      var last := parts[|parts| - 1];
      if last.Start? then (last.status, last.headers) else Opening(parts[..|parts| - 1])
  }

  predicate Finished(parts: seq<Outgoing>) {
    exists i :: 0 <= i < |parts| && parts[i].Body? && !parts[i].more
  }

  /** The variables `capturing_send` shares with `_execute`. */
  class Capture {
    const limit: nat
    const key: string
    var status: int
    var headers: HeaderList
    var body: Bytes
    var oversized: bool
    var finished: bool
    var wire: seq<Outgoing>
    ghost var parts: seq<Outgoing>

    /** A faithful copy of what the application has sent, unless it is over the limit; and the
        client has been sent every part, with the key added to the headers. */
    ghost predicate Valid()
      reads this
    {
      && (status, headers) == Opening(parts)
      && (oversized <==> |ResponseBody(parts)| > limit)
      && body == (if oversized then [] else ResponseBody(parts))
      && (finished <==> Finished(parts))
      && |wire| == |parts| && (forall i :: 0 <= i < |parts| ==> wire[i] == Sent(parts[i], key))
    }

    constructor (limit: nat, key: string)
      ensures Valid() && parts == [] && this.limit == limit && this.key == key
    {
      this.limit, this.key := limit, key;
      status, headers, body, oversized, finished := 500, [], [], false, false;
      wire, parts := [], [];
    }

    /** `capturing_send`. */
    method Send(message: Outgoing)
      requires Valid()
      modifies this
      ensures Valid() && parts == old(parts) + [message]
    {
      ghost var before := parts;
      parts := parts + [message];
      assert parts[..|parts| - 1] == before && parts[|before|] == message;
      var out := message;
      if message.Start? {
        status, headers := message.status, message.headers;
        out := message.(headers := message.headers + [(KEY_HEADER, key)]);
      } else if message.Body? {
        if !oversized {
          body := body + message.body;
          if |body| > limit {
            oversized := true;
            body := [];
          }
        }
        if !message.more {
          finished := true;
        }
      }
      wire := wire + [out];
    }

    /** The end of `_execute` when the application returned: what there is to store, if anything. */
    method Conclude() returns (stored: Option<StoredResponse>)
      requires Valid()
      ensures stored == ToStore(parts, limit)
    {
      if !finished || oversized || status >= 500 {
        return None;
      }
      if Retryable(status) {
        return None;
      }
      stored := Some(StoredResponse(status, WithoutCookies(headers), body));
    }
  }

  predicate Retryable(status: int) {
    status == 408 || status == 425 || status == 429
  }

  function Lower(s: string): (r: string)
    ensures |r| == |s|
  {
    if s == "" then ""
    else [if 'A' <= s[0] <= 'Z' then s[0] + ('a' - 'A') else s[0]] + Lower(s[1..])
  }

  predicate IsCookie(header: (string, string)) {
    Lower(header.0) == "set-cookie"
  }

  predicate NoCookies(headers: HeaderList) {
    forall i :: 0 <= i < |headers| ==> !IsCookie(headers[i])
  }

  function WithoutCookies(headers: HeaderList): (r: HeaderList)
    ensures NoCookies(r)
    ensures forall h :: h in headers && !IsCookie(h) ==> h in r
    ensures forall h :: h in r ==> h in headers
  {
    if headers == [] then []
    else if IsCookie(headers[0]) then WithoutCookies(headers[1..])
    else [headers[0]] + WithoutCookies(headers[1..])
  }

  /** A complete response within the limit that neither failed nor asks to be retried. */
  function ToStore(parts: seq<Outgoing>, limit: nat): Option<StoredResponse> {
    var (status, headers) := Opening(parts);
    if Finished(parts) && |ResponseBody(parts)| <= limit && status < 500 && !Retryable(status) then
      Some(StoredResponse(status, WithoutCookies(headers), ResponseBody(parts)))
    else None
  }

  // A key that has been seen before.

  datatype Answer = KeyReused | InProgress | Replay(parts: seq<Outgoing>)

  /** `_handle_existing` and `_send_stored`. */
  function AnswerTo(record: IdempotencyRecord, key: string, fingerprint: string): Answer {
    if record.fingerprint != fingerprint then KeyReused
    else if record.response.None? then InProgress
    else
      var stored := record.response.value;
      Replay([Start(stored.status, stored.headers + [(KEY_HEADER, key), (REPLAYED_HEADER, "true")]), Body(stored.body, false)])
  }

  /** What a client is replayed is what the first client was sent: the same status and body, the
      same headers in order except for cookies, and a mark that it is a replay. */
  lemma ReplayIsTheResponse(parts: seq<Outgoing>, limit: nat, key: string, fingerprint: string)
    requires ToStore(parts, limit).Some?
    ensures var answer := AnswerTo(IdempotencyRecord(fingerprint, ToStore(parts, limit)), key, fingerprint);
            && answer.Replay? && Finished(answer.parts)
            && Opening(answer.parts).0 == Opening(parts).0
            && ResponseBody(answer.parts) == ResponseBody(parts)
            && NoCookies(Opening(answer.parts).1)
            && Opening(answer.parts).1 == WithoutCookies(Opening(parts).1) + [(KEY_HEADER, key), (REPLAYED_HEADER, "true")]
  {
    hide Lower;
    var stored := ToStore(parts, limit).value;
    var own := [(KEY_HEADER, key), (REPLAYED_HEADER, "true")];
    var replay := [Start(stored.status, stored.headers + own), Body(stored.body, false)];
    assert AnswerTo(IdempotencyRecord(fingerprint, ToStore(parts, limit)), key, fingerprint) == Replay(replay);
    assert replay[1].Body? && !replay[1].more;
    assert replay[..1] == [replay[0]];
    assert ResponseBody(replay) == ResponseBody([replay[0]]) + stored.body == stored.body;
    assert !IsCookie(own[0]) && !IsCookie(own[1]);
  }

  /** The answer to a repeated key, in every case; a different request is refused as such whether or not
      the first one has finished. */
  lemma AnswerIff(record: IdempotencyRecord, key: string, fingerprint: string)
    ensures var answer := AnswerTo(record, key, fingerprint);
            && (answer == KeyReused <==> fingerprint != record.fingerprint)
            && (answer == InProgress <==> fingerprint == record.fingerprint && record.response.None?)
            && (answer.Replay? <==> fingerprint == record.fingerprint && record.response.Some?)
  {
  }

  /** What is kept of a response, from what the application sent alone. */
  predicate WorthKeeping(parts: seq<Outgoing>, limit: nat) {
    && (exists i :: 0 <= i < |parts| && parts[i].Body? && !parts[i].more)
    && |ResponseBody(parts)| <= limit
    && Opening(parts).0 < 500 && Opening(parts).0 !in {408, 425, 429}
  }

  lemma KeptIff(parts: seq<Outgoing>, limit: nat)
    ensures ToStore(parts, limit).Some? <==> WorthKeeping(parts, limit)
  {
    hide ResponseBody, Opening, WithoutCookies;
  }

  /** Dropping the cookies looks at each header on its own, so every other header stays as often as it
      was there and in its order. */
  lemma {:induction false} EachHeaderOnItsOwn(a: HeaderList, b: HeaderList, h: (string, string))
    ensures WithoutCookies([h]) == if IsCookie(h) then [] else [h]
    ensures WithoutCookies(a + b) == WithoutCookies(a) + WithoutCookies(b)
  {
    hide IsCookie, NoCookies;
    assert [h][1..] == [];
    if a == [] {
      assert a + b == b;
    } else {
      EachHeaderOnItsOwn(a[1..], b, h);
      assert (a + b)[0] == a[0] && (a + b)[1..] == a[1..] + b;
      if !IsCookie(a[0]) {
        assert [a[0]] + (WithoutCookies(a[1..]) + WithoutCookies(b)) == [a[0]] + WithoutCookies(a[1..]) + WithoutCookies(b);
      }
    }
  }

  /** What the first client gets: the application's status and body, its headers with the key added at
      the end, and an end of the response when the application ended it. */
  lemma {:induction false} ClientGetsTheResponse(parts: seq<Outgoing>, wire: seq<Outgoing>, key: string)
    requires |wire| == |parts| && forall i :: 0 <= i < |parts| ==> wire[i] == Sent(parts[i], key)
    ensures ResponseBody(wire) == ResponseBody(parts)
    ensures Opening(wire).0 == Opening(parts).0
    ensures (exists i :: 0 <= i < |parts| && parts[i].Start?) ==> Opening(wire).1 == Opening(parts).1 + [(KEY_HEADER, key)]
    ensures Finished(wire) <==> Finished(parts)
  {
    if parts != [] {
      var n := |parts| - 1;
      ClientGetsTheResponse(parts[..n], wire[..n], key);
      assert wire[n] == Sent(parts[n], key);
      assert forall i :: 0 <= i < |parts| && parts[i].Start? && i != n ==> parts[..n][i].Start?;
      FinishedStep(parts);
      FinishedStep(wire);
    }
  }

  lemma FinishedStep(parts: seq<Outgoing>)
    requires parts != []
    ensures var n := |parts| - 1; Finished(parts) <==> Finished(parts[..n]) || (parts[n].Body? && !parts[n].more)
  {
    var n := |parts| - 1;
    assert forall i :: 0 <= i < n ==> parts[..n][i] == parts[i];
  }
}
