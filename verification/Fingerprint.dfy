/** The bytes `request_fingerprint` feeds to its digest (`src/idempotency/base.py`). */
module Fingerprint {
  import opened Prelude
  import opened Text

  /** The five parts that make two requests the same request, each already encoded
      (the method upper-cased first). */
  datatype Request = Request(verb: Bytes, path: Bytes, query: Bytes, contentType: Bytes, body: Bytes)

  function Parts(r: Request): seq<Bytes> {
    [r.verb, r.path, r.query, r.contentType, r.body]
  }

  /** ASCII encoding of decimal text. */
  function Ascii(s: string): Bytes
    requires AllDigits(s)
  {
    seq(|s|, i requires 0 <= i < |s| => s[i] as int as Byte)
  }

  function LengthPrefix(part: Bytes): Bytes {
    PrintIsDigits(|part|);
    Ascii(Print(|part|))
  }

  function Frame(part: Bytes): Bytes {
    LengthPrefix(part) + [0] + part
  }

  /** Everything the digest has seen after `parts`. */
  function Encode(parts: seq<Bytes>): Bytes {
    if parts == [] then [] else Frame(parts[0]) + Encode(parts[1..])
  }

  /** `request_fingerprint`, up to the hash: one length, one NUL and one part at a time. */
  method DigestInput(r: Request) returns (fed: Bytes)
    ensures fed == Encode(Parts(r))
    ensures forall other: Request :: fed == Encode(Parts(other)) ==> other == r
  {
    forall other: Request | Encode(Parts(r)) == Encode(Parts(other)) ensures other == r {
      RequestsDoNotCollide(r, other);
    }
    var parts := Parts(r);
    fed := [];
    for k := 0 to |parts|
      invariant fed == Encode(parts[..k])
    {
      PrintIsDigits(|parts[k]|);
      fed := fed + Ascii(Print(|parts[k]|));
      fed := fed + [0];
      fed := fed + parts[k];
      EncodeAppend(parts[..k], parts[k]);
      assert parts[..k + 1] == parts[..k] + [parts[k]];
    }
    assert parts[..|parts|] == parts;
  }

  lemma AsciiInjective(s: string, t: string)
    requires AllDigits(s) && AllDigits(t) && Ascii(s) == Ascii(t)
    ensures s == t
  {
    assert |s| == |Ascii(s)| == |t|;
    forall i | 0 <= i < |s| ensures s[i] == t[i] {
      assert Ascii(s)[i] == s[i] as int as Byte && Ascii(t)[i] == t[i] as int as Byte;
    }
  }

  /** The first NUL ends the length, so a text decides its own first part. */
  lemma FirstFrameDecided(a: Bytes, b: Bytes, restA: Bytes, restB: Bytes)
    requires Frame(a) + restA == Frame(b) + restB
    ensures a == b && restA == restB
  {
    var pa, pb := LengthPrefix(a), LengthPrefix(b);
    var text := Frame(a) + restA;
    NoNul(a);
    NoNul(b);
    assert text[|pa|] == 0 && text[|pb|] == 0;
    assert forall i :: 0 <= i < |pa| ==> text[i] == pa[i];
    assert forall i :: 0 <= i < |pb| ==> text[i] == pb[i];
    assert |pa| == |pb|;
    assert pa == text[..|pa|] == pb;
    PrintIsDigits(|a|);
    PrintIsDigits(|b|);
    AsciiInjective(Print(|a|), Print(|b|));
    PrintInjective(|a|, |b|);
    var n := |pa| + 1;
    assert a == text[n..n + |a|] == b;
    assert restA == text[n + |a|..] == restB;
  }

  lemma NoNul(part: Bytes)
    ensures forall i :: 0 <= i < |LengthPrefix(part)| ==> LengthPrefix(part)[i] != 0
  {
    PrintIsDigits(|part|);
  }

  lemma {:induction false} EncodeAppend(parts: seq<Bytes>, last: Bytes)
    ensures Encode(parts + [last]) == Encode(parts) + Frame(last)
  {
    if parts == [] {
      assert Encode([last]) == Frame(last) + Encode([]);
    } else {
      EncodeAppend(parts[1..], last);
      assert (parts + [last])[1..] == parts[1..] + [last];
    }
  }

  /** Any number of parts of any content: equal digest inputs come from equal parts. */
  lemma {:induction false} EncodeInjective(a: seq<Bytes>, b: seq<Bytes>)
    requires Encode(a) == Encode(b)
    ensures a == b
  {
    if a != [] && b != [] {
      FirstFrameDecided(a[0], b[0], Encode(a[1..]), Encode(b[1..]));
      EncodeInjective(a[1..], b[1..]);
    }
  }

  lemma RequestsDoNotCollide(r: Request, s: Request)
    requires Encode(Parts(r)) == Encode(Parts(s))
    ensures r == s
  {
    EncodeInjective(Parts(r), Parts(s));
    assert Parts(r)[0] == Parts(s)[0] && Parts(r)[1] == Parts(s)[1] && Parts(r)[2] == Parts(s)[2];
    assert Parts(r)[3] == Parts(s)[3] && Parts(r)[4] == Parts(s)[4];
  }
}
