/** Kafka records as `src/kafka/base.py` describes them. */
module Records {
  import opened Prelude

  datatype Partition = Partition(topic: string, number: nat)

  /** A header value is bytes. Those that are valid UTF-8 are represented by the text they
      encode, which loses nothing because UTF-8 decoding is one-to-one. */
  datatype HeaderValue = Utf8(text: string) | NotUtf8(raw: Bytes)

  type Headers = seq<(string, HeaderValue)>

  /** What a producer hands to `publish`. */
  datatype Record = Record(key: Option<string>, value: Option<Bytes>, headers: Headers)

  datatype Message = Message(partition: Partition, offset: nat, record: Record)
  {
    function NextOffset(): nat {
      offset + 1
    }
  }

  /** `ConsumedMessage.header`: the first value under `name`. */
  function FirstHeader(headers: Headers, name: string): Option<HeaderValue> {
    if headers == [] then None
    else if headers[0].0 == name then Some(headers[0].1)
    else FirstHeader(headers[1..], name)
  }

  /** `ConsumedMessage.all_headers`: every value under `name`, in wire order. */
  function AllHeaders(headers: Headers, name: string): seq<HeaderValue> {
    if headers == [] then []
    else (if headers[0].0 == name then [headers[0].1] else []) + AllHeaders(headers[1..], name)
  }

  /** `validate_record`. */
  predicate Publishable(topic: string, record: Record) {
    topic != "" && (record.value.Some? || record.key.Some?)
  }

  lemma {:induction false} FirstHeaderAt(headers: Headers, name: string, k: nat)
    requires k < |headers| && headers[k].0 == name
    requires forall j :: 0 <= j < k ==> headers[j].0 != name
    ensures FirstHeader(headers, name) == Some(headers[k].1)
  {
    if k > 0 {
      FirstHeaderAt(headers[1..], name, k - 1);
    }
  }

  lemma {:induction false} FirstHeaderSkips(front: Headers, back: Headers, name: string)
    requires forall j :: 0 <= j < |front| ==> front[j].0 != name
    ensures FirstHeader(front + back, name) == FirstHeader(back, name)
  {
    if front == [] {
      assert front + back == back;
    } else {
      FirstHeaderSkips(front[1..], back, name);
      assert (front + back)[1..] == front[1..] + back;
    }
  }
}
