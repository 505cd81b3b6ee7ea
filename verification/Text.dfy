/** Decimal text as Python's `str(int)` writes it and `int(str)` reads it, and the
    substring searches the naming and list code is built on. */
module Text {
  import opened Prelude

  predicate IsDigit(c: char) {
    '0' <= c <= '9'
  }

  predicate AllDigits(s: string) {
    forall i :: 0 <= i < |s| ==> IsDigit(s[i])
  }

  function Digit(d: nat): char
    requires d < 10
  {
    '0' + d as char
  }

  /** `str(n)` for a non-negative `n`. */
  function Print(n: nat): string {
    if n < 10 then [Digit(n)] else Print(n / 10) + [Digit(n % 10)]
  }

  /** `str(z)`. */
  function PrintInt(z: int): string {
    if z < 0 then "-" + Print(-z) else Print(z)
  }

  /** ASCII and Latin-1 members of the class `int()` ignores at both ends. */
  predicate IsSpace(c: char) {
    c == ' ' || '\U{09}' <= c <= '\U{0D}' || '\U{1C}' <= c <= '\U{1F}' || c == '\U{85}' || c == '\U{A0}'
  }

  function TrimLeft(s: string): string {
    if s != "" && IsSpace(s[0]) then TrimLeft(s[1..]) else s
  }

  function TrimRight(s: string): string {
    if s != "" && IsSpace(s[|s| - 1]) then TrimRight(s[..|s| - 1]) else s
  }

  /** Digits with single underscores between them, as `int()` admits. */
  predicate IsMagnitude(s: string) {
    && s != ""
    && IsDigit(s[0])
    && IsDigit(s[|s| - 1])
    && (forall i :: 0 <= i < |s| ==> IsDigit(s[i]) || s[i] == '_')
    && (forall i :: 0 <= i < |s| - 1 ==> s[i] == '_' ==> s[i + 1] != '_')
  }

  /** The number the digits of `s` spell, most significant first. */
  function Magnitude(s: string): nat {
    if s == "" then 0
    else
      var c := s[|s| - 1];
      if IsDigit(c) then 10 * Magnitude(s[..|s| - 1]) + (c - '0') as int else Magnitude(s[..|s| - 1])
  }

  /** `int(text)`, with None for the `ValueError`. */
  function ParseInt(text: string): Option<int> {
    var s := TrimRight(TrimLeft(text));
    var signed := s != "" && (s[0] == '-' || s[0] == '+');
    var digits := if signed then s[1..] else s;
    if !IsMagnitude(digits) then None
    else
      var value: int := Magnitude(digits);
      Some(if signed && s[0] == '-' then -value else value)
  }

  lemma {:induction false} PrintIsDigits(n: nat)
    ensures Print(n) != "" && AllDigits(Print(n)) && Magnitude(Print(n)) == n
  {
    if n >= 10 {
      PrintIsDigits(n / 10);
      assert Print(n)[..|Print(n)| - 1] == Print(n / 10);
    }
  }

  lemma PrintInjective(m: nat, n: nat)
    requires Print(m) == Print(n)
    ensures m == n
  {
    PrintIsDigits(m);
    PrintIsDigits(n);
  }

  lemma ParseUndoesPrint(z: int)
    ensures ParseInt(PrintInt(z)) == Some(z)
  {
    var n: nat := if z < 0 then -z else z;
    PrintIsDigits(n);
    ParseDigits(Print(n));
  }

  lemma ParseDigits(digits: string)
    requires digits != "" && AllDigits(digits)
    ensures ParseInt(digits) == Some(Magnitude(digits))
    ensures ParseInt("-" + digits) == Some(-(Magnitude(digits) as int))
  {
    hide Magnitude;
    assert IsMagnitude(digits);
    assert TrimLeft(digits) == digits == TrimRight(digits);
    var s := "-" + digits;
    assert TrimLeft(s) == s == TrimRight(s);
    assert s[1..] == digits;
  }

  predicate EndsWith(s: string, suffix: string) {
    |suffix| <= |s| && s[|s| - |suffix|..] == suffix
  }

  predicate OccursAt(s: string, mark: string, i: int) {
    0 <= i <= |s| - |mark| && s[i..i + |mark|] == mark
  }

  /** The index of the last occurrence of `mark` that starts at or before `from`:
      the separator `str.rpartition` splits at. */
  function LastOccurrence(s: string, mark: string, from: int): (r: Option<nat>)
    ensures r.Some? ==> OccursAt(s, mark, r.value)
    ensures r.Some? ==> forall i :: r.value < i <= from ==> !OccursAt(s, mark, i)
    ensures r.None? ==> forall i :: i <= from ==> !OccursAt(s, mark, i)
    decreases from + 1
  {
    if from < 0 then None
    else if OccursAt(s, mark, from) then Some(from)
    else LastOccurrence(s, mark, from - 1)
  }

  /** The index of the first `c`, where `str.partition` splits. */
  function FirstIndex(s: string, c: char): (r: Option<nat>)
    ensures r.Some? ==> r.value < |s| && s[r.value] == c && c !in s[..r.value]
    ensures r.None? ==> c !in s
  {
    if s == "" then None
    else if s[0] == c then Some(0)
    else
      var rest := FirstIndex(s[1..], c);
      if rest.None? then None
      else
        assert s[..rest.value + 1] == [s[0]] + s[1..][..rest.value];
        Some(rest.value + 1)
  }
}
