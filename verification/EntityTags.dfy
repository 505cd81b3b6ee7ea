/** The entity-tag list scanner of `src/concurrency/tags.py`, against the grammar of
    sections 8.8.3 and 5.6.1.2 of RFC 9110. */
module EntityTags {
  import opened Prelude

  datatype EntityTag = EntityTag(value: string, weak: bool)

  datatype Malformed = NotATag | NotSeparated

  /** `etagc`: any visible character but the double quote, or obs-text. */
  predicate Etagc(c: char) {
    c == '\U{21}' || '\U{23}' <= c <= '\U{7E}' || '\U{80}' <= c <= '\U{FF}'
  }

  predicate IsOws(c: char) {
    c == ' ' || c == '\t'
  }

  /** The characters a tag may hold, by code, and the two that pad a list (sections 8.8.3 and 5.6.3 of
      RFC 9110). In particular neither a quote nor a space or control character is in a tag. */
  lemma GrammarCharacters(c: char)
    ensures Etagc(c) <==> c as int == 0x21 || 0x23 <= c as int <= 0x7e || 0x80 <= c as int <= 0xff
    ensures IsOws(c) <==> c as int == 0x20 || c as int == 0x09
    ensures !(Etagc(c) && IsOws(c)) && !Etagc('"') && Etagc(',')
  {
  }

  predicate Opaque(s: string) {
    forall i :: 0 <= i < |s| ==> Etagc(s[i])
  }

  predicate Blank(s: string) {
    forall i :: 0 <= i < |s| ==> IsOws(s[i])
  }

  function Serialize(tag: EntityTag): string {
    (if tag.weak then "W/" else "") + "\"" + tag.value + "\""
  }

  // The list grammar, independent of any scanning order.

  /** One list element: an optional tag padded with optional whitespace. */
  datatype Element = Element(before: string, tag: Option<EntityTag>, after: string)

  predicate IsElement(e: Element) {
    Blank(e.before) && Blank(e.after) && (e.tag.Some? ==> Opaque(e.tag.value.value))
  }

  function ElementText(e: Element): string {
    e.before + (if e.tag.Some? then Serialize(e.tag.value) else "") + e.after
  }

  predicate IsList(es: seq<Element>) {
    es != [] && forall i :: 0 <= i < |es| ==> IsElement(es[i])
  }

  function ListText(es: seq<Element>): string
    requires es != []
  {
    ElementText(es[0]) + (if |es| == 1 then "" else "," + ListText(es[1..]))
  }

  function TagsOf(es: seq<Element>): seq<EntityTag> {
    if es == [] then [] else (if es[0].tag.Some? then [es[0].tag.value] else []) + TagsOf(es[1..])
  }

  ghost predicate Denotes(raw: string, tags: seq<EntityTag>) {
    exists es: seq<Element> :: IsList(es) && ListText(es) == raw && TagsOf(es) == tags
  }

  // What the scanner does, on the text it has not consumed yet.

  function SkipOws(s: string): string {
    if s != "" && IsOws(s[0]) then SkipOws(s[1..]) else s
  }

  /** The longest run of `etagc` at the front of `s`. */
  function OpaqueRun(s: string): (n: nat)
    ensures n <= |s| && Opaque(s[..n]) && (n < |s| ==> !Etagc(s[n]))
  {
    if s != "" && Etagc(s[0]) then
      var n := OpaqueRun(s[1..]);
      assert s[..n + 1] == [s[0]] + s[1..][..n];
      n + 1
    else 0
  }

  /** `_ENTITY_TAG.match`: the tag at the front of `s` and how much text it takes. */
  function MatchTag(s: string): (r: Option<(EntityTag, nat)>)
    ensures r.Some? ==>
              r.value.1 <= |s| && Opaque(r.value.0.value) && Serialize(r.value.0) == s[..r.value.1]
  {
    var weak := "W/" <= s;
    var open := if weak then 2 else 0;
    if open < |s| && s[open] == '"' then
      var n := OpaqueRun(s[open + 1..]);
      var close := open + 1 + n;
      if close < |s| && s[close] == '"' then
        var tag := EntityTag(s[open + 1..close], weak);
        assert s[open + 1..][..n] == s[open + 1..close];
        assert s[..close + 1] == s[..open] + "\"" + s[open + 1..close] + "\"";
        Some((tag, close + 1))
      else None
    else None
  }

  function Prepend(tags: seq<EntityTag>, r: Result<seq<EntityTag>, Malformed>): Result<seq<EntityTag>, Malformed> {
    if r.Ok? then Ok(tags + r.value) else r
  }

  lemma SkipOwsShrinks(s: string)
    ensures |SkipOws(s)| <= |s|
    ensures SkipOws(s) != "" ==> !IsOws(SkipOws(s)[0])
  {
  }

  /** The whole loop, on the text left. */
  function Scan(s: string): Result<seq<EntityTag>, Malformed>
    decreases |s|, 2
  {
    SkipOwsShrinks(s);
    ScanElement(SkipOws(s))
  }

  /** One pass of the loop body once the padding is gone. */
  function ScanElement(t: string): Result<seq<EntityTag>, Malformed>
    decreases |t|, 1
  {
    if t == "" then Ok([])
    else if t[0] == ',' then Scan(t[1..])
    else
      var m := MatchTag(t);
      if m.None? then Err(NotATag)
      else
        SkipOwsShrinks(t[m.value.1..]);
        AfterTag(m.value.0, SkipOws(t[m.value.1..]))
  }

  /** The separator check after a tag. */
  function AfterTag(tag: EntityTag, u: string): Result<seq<EntityTag>, Malformed>
    decreases |u|, 0
  {
    if u == "" then Ok([tag])
    else if u[0] != ',' then Err(NotSeparated)
    else Prepend([tag], Scan(u[1..]))
  }

  lemma PrependIsAppend(a: seq<EntityTag>, b: seq<EntityTag>, r: Result<seq<EntityTag>, Malformed>)
    ensures Prepend(a, Prepend(b, r)) == Prepend(a + b, r)
    ensures Prepend([], r) == r
  {
    if r.Ok? {
      assert a + (b + r.value) == (a + b) + r.value;
      assert [] + r.value == r.value;
    }
  }

  // The scanner accepts the grammar.

  lemma {:induction false} SkipBlank(pad: string, rest: string)
    requires Blank(pad)
    ensures SkipOws(pad + rest) == SkipOws(rest)
  {
    if pad == "" {
      assert pad + rest == rest;
    } else {
      SkipBlank(pad[1..], rest);
      assert (pad + rest)[1..] == pad[1..] + rest;
    }
  }

  lemma {:induction false} OpaqueRunStopsAtQuote(value: string, rest: string)
    requires Opaque(value)
    ensures OpaqueRun(value + "\"" + rest) == |value|
  {
    var s := value + "\"" + rest;
    if value != "" {
      OpaqueRunStopsAtQuote(value[1..], rest);
      assert s[1..] == value[1..] + "\"" + rest;
    }
  }

  lemma MatchSerialized(tag: EntityTag, rest: string)
    requires Opaque(tag.value)
    ensures MatchTag(Serialize(tag) + rest) == Some((tag, |Serialize(tag)|))
  {
    var s := Serialize(tag) + rest;
    var open := if tag.weak then 2 else 0;
    assert s[open] == '"';
    assert s[..open] == if tag.weak then "W/" else "";
    assert ("W/" <= s) == tag.weak;
    assert s[open + 1..] == tag.value + "\"" + rest;
    OpaqueRunStopsAtQuote(tag.value, rest);
    assert s[open + 1..open + 1 + |tag.value|] == tag.value;
  }

  lemma ScanPadded(pad: string, t: string)
    requires Blank(pad)
    ensures Scan(pad + t) == Scan(t)
  {
    SkipBlank(pad, t);
  }

  lemma ScanComma(rest: string)
    ensures Scan("," + rest) == Scan(rest)
  {
    assert SkipOws("," + rest) == "," + rest;
    assert ("," + rest)[1..] == rest;
  }

  /** A tag, the padding behind it, and what follows the padding. */
  lemma ScanTag(tag: EntityTag, gap: string, u: string)
    requires Opaque(tag.value) && Blank(gap) && (u != "" ==> !IsOws(u[0]))
    ensures Scan(Serialize(tag) + (gap + u)) == AfterTag(tag, u)
  {
    var text := Serialize(tag) + (gap + u);
    assert SkipOws(text) == text && text[0] != ',';
    MatchSerialized(tag, gap + u);
    assert text[|Serialize(tag)|..] == gap + u;
    SkipBlank(gap, u);
    assert SkipOws(u) == u;
  }

  lemma ScanEnd(tag: EntityTag)
    ensures Scan("") == Ok([]) && AfterTag(tag, "") == Ok([tag])
  {
  }

  lemma AfterTagComma(tag: EntityTag, rest: string)
    ensures AfterTag(tag, "," + rest) == Prepend([tag], Scan(rest))
  {
    assert ("," + rest)[1..] == rest;
  }

  /** What follows the first element. */
  function Tail(es: seq<Element>): string
    requires es != []
  {
    if |es| == 1 then "" else "," + ListText(es[1..])
  }

  lemma FirstElement(es: seq<Element>)
    requires es != []
    ensures ListText(es) ==
            es[0].before + ((if es[0].tag.Some? then Serialize(es[0].tag.value) else "") + (es[0].after + Tail(es)))
    ensures es[0].tag.None? ==> ListText(es) == es[0].before + (es[0].after + Tail(es))
  {
    hide Serialize;
    var mid := if es[0].tag.Some? then Serialize(es[0].tag.value) else "";
    Regroup(es[0].before, mid, es[0].after, Tail(es));
  }

  lemma Regroup(a: string, b: string, c: string, d: string)
    ensures a + b + c + d == a + (b + (c + d))
    ensures b == "" ==> b + (c + d) == c + d
  {
  }

  lemma ScanTail(es: seq<Element>)
    requires |es| > 1 ==> Scan(ListText(es[1..])) == Ok(TagsOf(es[1..]))
    requires es != []
    ensures Tail(es) != "" ==> !IsOws(Tail(es)[0])
    ensures Scan(Tail(es)) == Ok(TagsOf(es[1..]))
    ensures forall tag :: AfterTag(tag, Tail(es)) == Ok([tag] + TagsOf(es[1..]))
  {
    forall tag ensures AfterTag(tag, Tail(es)) == Ok([tag] + TagsOf(es[1..])) {
      if |es| > 1 {
        AfterTagComma(tag, ListText(es[1..]));
      } else {
        assert [tag] + TagsOf(es[1..]) == [tag];
      }
    }
    if |es| > 1 {
      ScanComma(ListText(es[1..]));
    }
  }

  lemma {:induction false} ScanAcceptsLists(es: seq<Element>)
    requires IsList(es)
    ensures Scan(ListText(es)) == Ok(TagsOf(es))
    decreases |es|
  {
    hide MatchTag, Scan, ScanElement, AfterTag, SkipOws, Serialize, ListText, Tail;
    var e, tail := es[0], Tail(es);
    if |es| > 1 {
      ScanAcceptsLists(es[1..]);
    }
    ScanTail(es);
    FirstElement(es);
    if e.tag.None? {
      ScanPadded(e.before, e.after + tail);
      ScanPadded(e.after, tail);
      assert TagsOf(es) == TagsOf(es[1..]);
    } else {
      ScanPadded(e.before, Serialize(e.tag.value) + (e.after + tail));
      ScanTag(e.tag.value, e.after, tail);
    }
  }

  // And nothing else.

  lemma {:induction false} SkippedIsBlank(s: string) returns (pad: string)
    ensures Blank(pad) && s == pad + SkipOws(s)
  {
    if s != "" && IsOws(s[0]) {
      var p := SkippedIsBlank(s[1..]);
      pad := [s[0]] + p;
    } else {
      pad := "";
    }
  }

  lemma ConsText(e: Element, rest: seq<Element>)
    requires IsElement(e) && IsList(rest)
    ensures IsList([e] + rest)
    ensures ListText([e] + rest) == ElementText(e) + "," + ListText(rest)
    ensures TagsOf([e] + rest) == (if e.tag.Some? then [e.tag.value] else []) + TagsOf(rest)
  {
    assert ([e] + rest)[1..] == rest;
  }

  lemma SingletonText(e: Element)
    requires IsElement(e)
    ensures IsList([e]) && ListText([e]) == ElementText(e)
    ensures TagsOf([e]) == if e.tag.Some? then [e.tag.value] else []
  {
    assert TagsOf([e][1..]) == [];
  }

  /** How the first loop pass takes apart a text that scans. */
  lemma FirstPass(s: string) returns (e: Element, rest: Option<string>)
    requires Scan(s).Ok?
    ensures IsElement(e)
    ensures s == ElementText(e) + (if rest.Some? then "," + rest.value else "")
    ensures rest.Some? ==> Scan(rest.value).Ok?
    ensures Scan(s).value ==
            (if e.tag.Some? then [e.tag.value] else []) + (if rest.Some? then Scan(rest.value).value else [])
  {
    hide MatchTag, Serialize;
    var t := SkipOws(s);
    var pad := SkippedIsBlank(s);
    e, rest := Element(pad, None, ""), None;
    if t != "" && t[0] == ',' {
      rest := Some(t[1..]);
    } else if t != "" {
      var tag, gap, u := TagFirst(t);
      e := Element(pad, Some(tag), gap);
      if u != "" {
        rest := Some(u[1..]);
        assert u == "," + u[1..];
      }
    }
  }

  lemma TagFirst(t: string) returns (tag: EntityTag, gap: string, u: string)
    requires t != "" && t[0] != ',' && ScanElement(t).Ok?
    ensures Opaque(tag.value) && Blank(gap) && t == Serialize(tag) + gap + u
    ensures ScanElement(t) == AfterTag(tag, u)
  {
    var m := MatchTag(t).value;
    tag, u := m.0, SkipOws(t[m.1..]);
    gap := SkippedIsBlank(t[m.1..]);
    assert t == t[..m.1] + t[m.1..];
  }

  lemma {:induction false} ScanYieldsLists(s: string) returns (es: seq<Element>)
    requires Scan(s).Ok?
    ensures IsList(es) && ListText(es) == s && TagsOf(es) == Scan(s).value
    decreases |s|
  {
    hide MatchTag, Scan, ScanElement, AfterTag, SkipOws, Serialize;
    var e, rest := FirstPass(s);
    if rest.None? {
      es := [e];
      SingletonText(e);
    } else {
      var more := ScanYieldsLists(rest.value);
      es := [e] + more;
      ConsText(e, more);
    }
  }

  /** The scanner accepts exactly the texts the grammar derives, and the tags it returns
      are the only ones the grammar can assign to that text. */
  lemma ScanIsTheGrammar(raw: string, tags: seq<EntityTag>)
    ensures Scan(raw) == Ok(tags) <==> Denotes(raw, tags)
  {
    if Scan(raw) == Ok(tags) {
      var es := ScanYieldsLists(raw);
    }
    if Denotes(raw, tags) {
      var es: seq<Element> :| IsList(es) && ListText(es) == raw && TagsOf(es) == tags;
      ScanAcceptsLists(es);
    }
  }

  lemma DenotedByScan(raw: string)
    ensures forall tags :: Scan(raw) == Ok(tags) <==> Denotes(raw, tags)
  {
    forall tags ensures Scan(raw) == Ok(tags) <==> Denotes(raw, tags) {
      ScanIsTheGrammar(raw, tags);
    }
  }

  /** `parse_entity_tag_list`: the index loop over the header. */
  method ParseEntityTagList(raw: string) returns (r: Result<seq<EntityTag>, Malformed>)
    ensures r == Scan(raw)
    ensures forall tags :: r == Ok(tags) <==> Denotes(raw, tags)
  {
    hide MatchTag, Scan, ScanElement, AfterTag, SkipOws, Serialize;
    DenotedByScan(raw);
    var tags: seq<EntityTag>, pos := [], 0;
    assert raw[0..] == raw;
    PrependIsAppend([], [], Scan(raw));
    while pos < |raw|
      invariant 0 <= pos <= |raw|
      invariant Scan(raw) == Prepend(tags, Scan(raw[pos..]))
    {
      pos := SkipPadding(raw, pos);
      if pos < |raw| && raw[pos] == ',' {
        assert raw[pos..] == "," + raw[pos + 1..];
        ScanComma(raw[pos + 1..]);
        pos := pos + 1;
        continue;
      }
      if pos >= |raw| {
        break;
      }
      var m := MatchTag(raw[pos..]);
      if m.None? {
        ScanNoTag(raw[pos..]);
        return Err(NotATag);
      }
      var end := SkipPadding(raw, pos + m.value.1);
      TagAt(raw, pos, end);
      if end < |raw| && raw[end] != ',' {
        return Err(NotSeparated);
      }
      pos := if end < |raw| then end + 1 else end;
      PrependIsAppend(tags, [m.value.0], Scan(raw[pos..]));
      tags := tags + [m.value.0];
    }
    assert raw[pos..] == "";
    ScanEnd(EntityTag("", false));
    PrependIsAppend(tags, [], Ok([]));
    r := Ok(tags);
  }

  lemma ScanNoTag(t: string)
    requires t != "" && !IsOws(t[0]) && t[0] != ',' && MatchTag(t).None?
    ensures Scan(t) == Err(NotATag)
  {
    assert SkipOws(t) == t;
  }

  /** What one pass over a tag at `pos` leaves to scan, `end` being past its padding. */
  lemma TagAt(raw: string, pos: nat, end: nat)
    requires pos < |raw| && !IsOws(raw[pos]) && raw[pos] != ',' && MatchTag(raw[pos..]).Some?
    requires end <= |raw| && raw[end..] == SkipOws(raw[pos + MatchTag(raw[pos..]).value.1..])
    ensures end < |raw| && raw[end] != ',' ==> Scan(raw[pos..]) == Err(NotSeparated)
    ensures end < |raw| && raw[end] == ',' ==>
              Scan(raw[pos..]) == Prepend([MatchTag(raw[pos..]).value.0], Scan(raw[end + 1..]))
    ensures end == |raw| ==>
              Scan(raw[pos..]) == Prepend([MatchTag(raw[pos..]).value.0], Scan(raw[end..]))
  {
    var m := MatchTag(raw[pos..]).value;
    assert SkipOws(raw[pos..]) == raw[pos..];
    assert raw[pos..][m.1..] == raw[pos + m.1..];
    assert Scan(raw[pos..]) == AfterTag(m.0, raw[end..]);
    if end < |raw| && raw[end] == ',' {
      assert raw[end..] == "," + raw[end + 1..];
      AfterTagComma(m.0, raw[end + 1..]);
    } else if end == |raw| {
      assert [m.0] + [] == [m.0];
    }
  }

  /** The two inner whitespace loops. */
  method SkipPadding(raw: string, start: nat) returns (pos: nat)
    requires start <= |raw|
    ensures start <= pos <= |raw| && raw[pos..] == SkipOws(raw[start..])
    ensures pos < |raw| ==> !IsOws(raw[pos])
    ensures Scan(raw[pos..]) == Scan(raw[start..])
  {
    pos := start;
    while pos < |raw| && IsOws(raw[pos])
      invariant start <= pos <= |raw|
      invariant SkipOws(raw[pos..]) == SkipOws(raw[start..])
    {
      assert raw[pos..][1..] == raw[pos + 1..];
      pos := pos + 1;
    }
    assert SkipOws(raw[pos..]) == raw[pos..];
  }

  // Serialising and joining is undone by scanning.

  function Join(tags: seq<EntityTag>): string {
    if tags == [] then ""
    else if |tags| == 1 then Serialize(tags[0])
    else Serialize(tags[0]) + ", " + Join(tags[1..])
  }

  function Elements(tags: seq<EntityTag>, pad: string): seq<Element> {
    if tags == [] then [] else [Element(pad, Some(tags[0]), "")] + Elements(tags[1..], " ")
  }

  lemma {:induction false} JoinIsAList(tags: seq<EntityTag>, pad: string)
    requires tags != [] && Blank(pad)
    requires forall tag :: tag in tags ==> Opaque(tag.value)
    ensures IsList(Elements(tags, pad))
    ensures ListText(Elements(tags, pad)) == pad + Join(tags)
    ensures TagsOf(Elements(tags, pad)) == tags
  {
    hide Serialize;
    var es := Elements(tags, pad);
    assert es[1..] == Elements(tags[1..], " ");
    assert TagsOf(es) == [tags[0]] + TagsOf(es[1..]);
    if |tags| == 1 {
      assert es[1..] == [];
    } else {
      JoinIsAList(tags[1..], " ");
    }
  }

  /** Round trip: commas inside a tag's value never split it. */
  lemma ScanUndoesJoin(tags: seq<EntityTag>)
    requires forall tag :: tag in tags ==> Opaque(tag.value)
    ensures Scan(Join(tags)) == Ok(tags)
  {
    if tags != [] {
      JoinIsAList(tags, "");
      ScanAcceptsLists(Elements(tags, ""));
      assert "" + Join(tags) == Join(tags);
    }
  }
}
