/** Types shared by the whole model: optional values, C strings, fixed-width integers and JSON trees. */
module Common {
  datatype Option<+T> = None | Some(value: T)

  /** A `const char *` of the source: a null pointer or a text. */
  type CStr = Option<string>

  predicate Present(c: CStr) {
    c.Some? && c.value != ""
  }

  /** The text of a C string, with a null pointer read as the empty text. */
  function Text(c: CStr): string {
    if c.Some? then c.value else ""
  }

  type uint8 = n: int | 0 <= n < 0x100
  type uint16 = n: int | 0 <= n < 0x1_0000
  type int32 = n: int | -0x8000_0000 <= n < 0x8000_0000
  type uint32 = n: int | 0 <= n < 0x1_0000_0000

  const UINT16_MAX: uint16 := 0xFFFF
  const INT32_MAX := 0x7FFF_FFFF

  /** A JSON or MessagePack document. `Fraction` holds the numbers that are not integral. */
  datatype Json =
    | Null
    | Bool(flag: bool)
    | Num(n: int)
    | Fraction(r: real)
    | Str(text: string)
    | Arr(items: seq<Json>)
    | Obj(fields: map<string, Json>)

  /** std::to_string of a non-negative number. */
  function Decimal(n: nat): string {
    var digit := [('0' as int + n % 10) as char];
    if n < 10 then digit else Decimal(n / 10) + digit
  }

  /** One level of a topic: neither a separator, a wildcard nor a control character. */
  predicate ValidSegment(segment: string) {
    && 0 < |segment| <= 64
    && forall i :: 0 <= i < |segment| ==>
         segment[i] != '/' && segment[i] != '+' && segment[i] != '#' && segment[i] as int >= 0x20
  }

  predicate ValidName(name: string) {
    ValidSegment(name) && name != "all"
  }

  /** Position of the first `c` at or after `from`, or |s| when there is none. */
  function IndexFrom(s: string, c: char, from: nat): (k: nat)
    requires from <= |s|
    ensures from <= k <= |s|
    ensures c !in s[from..k]
    ensures k < |s| ==> s[k] == c
    decreases |s| - from
  {
    if from == |s| || s[from] == c then from
    else
      var k := IndexFrom(s, c, from + 1);
      assert s[from..k] == [s[from]] + s[from + 1..k];
      k
  }

  /** The first occurrence is where a text without `c` ends. */
  lemma {:induction false} IndexAfter(prefix: string, c: char, rest: string)
    requires c !in prefix
    ensures IndexFrom(prefix + [c] + rest, c, 0) == |prefix|
  {
    var s := prefix + [c] + rest;
    var k := IndexFrom(s, c, 0);
    assert forall j :: 0 <= j < |prefix| ==> s[j] == prefix[j];
    assert s[|prefix|] == c;
    assert forall m :: |prefix| < m <= |s| ==> s[0..m][|prefix|] == c;
  }
}
