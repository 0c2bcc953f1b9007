/** The JavaScript values the forms and cells handle, their truthiness, plain
    objects as insertion-ordered dictionaries, and the small string helpers
    several components share. */
module Js {
  import opened Seqs
  import opened Assoc

  /** A form or record value. `NoonIso(day)` stands for
      `new Date(day + 'T12:00:00').toISOString()`, kept symbolic because the
      conversion depends on the browser's time zone. */
  datatype Value =
    | Undefined
    | Null
    | Str(s: string)
    | Num(n: int)
    | Bool(b: bool)
    | Arr(items: seq<string>)
    | File(name: string)
    | NoonIso(day: Value)

  /** JavaScript truthiness: `undefined`, `null`, `''`, `0` and `false` are
      falsy; every array and object, even an empty array, is truthy. */
  predicate Truthy(v: Value) {
    match v
    case Undefined => false
    case Null => false
    case Str(s) => s != ""
    case Num(n) => n != 0
    case Bool(b) => b
    case Arr(_) => true
    case File(_) => true
    case NoonIso(_) => true
  }

  /** A plain object. */
  type Obj = Assoc<string, Value>

  /** `o[k]`: `undefined` when the key is absent. */
  function Get(o: Obj, k: string): Value {
    match Lookup(o, k)
    case Some(v) => v
    case None => Undefined
  }

  /** `{ ...o, [k]: v }` reads back `v` at `k` and what `o` held elsewhere. */
  lemma GetPut(o: Obj, k: string, v: Value, j: string)
    ensures Get(Put(o, k, v), j) == if j == k then v else Get(o, j)
  {
    LookupPut(o, k, v, j);
  }

  /** `s.split(/[T ]/)[0]`: the part of `s` before the first 'T' or space. */
  function DatePart(s: string): (r: string)
    ensures r <= s
    ensures 'T' !in r && ' ' !in r
    ensures |r| < |s| ==> s[|r|] == 'T' || s[|r|] == ' '
  {
    if |s| == 0 then ""
    else if s[0] == 'T' || s[0] == ' ' then ""
    else [s[0]] + DatePart(s[1..])
  }

  /** Cutting again at a separator changes nothing. */
  lemma DatePartIdempotent(s: string)
    ensures DatePart(DatePart(s)) == DatePart(s)
  {
    var r := DatePart(s);
    NoSeparatorDatePart(r);
  }

  lemma {:induction false} NoSeparatorDatePart(s: string)
    requires 'T' !in s && ' ' !in s
    ensures DatePart(s) == s
  {
    if |s| > 0 {
      assert s[0] in s;
      assert forall c :: c in s[1..] ==> c in s;
      NoSeparatorDatePart(s[1..]);
      assert s == [s[0]] + s[1..];
    }
  }

  function ToUpper(c: char): char {
    if 'a' <= c <= 'z' then (c as int - 32) as char else c
  }

  function ToLower(c: char): char {
    if 'A' <= c <= 'Z' then (c as int + 32) as char else c
  }

  /** `str.charAt(0).toUpperCase() + str.slice(1).toLowerCase()`, over ASCII
      letters only. */
  function Capitalize(s: string): (r: string)
    ensures |r| == |s|
    ensures |s| > 0 ==> r[0] == ToUpper(s[0])
    ensures forall i :: 1 <= i < |s| ==> r[i] == ToLower(s[i])
  {
    if |s| == 0 then ""
    else [ToUpper(s[0])] + seq(|s| - 1, i requires 0 <= i < |s| - 1 => ToLower(s[i + 1]))
  }

  /** A capitalised label has no lower-case ASCII letter first and no
      upper-case ASCII letter after that, so capitalising it again is a no-op. */
  lemma CapitalizeIdempotent(s: string)
    ensures |s| > 0 ==> !('a' <= Capitalize(s)[0] <= 'z')
    ensures forall i :: 1 <= i < |s| ==> !('A' <= Capitalize(s)[i] <= 'Z')
    ensures Capitalize(Capitalize(s)) == Capitalize(s)
  {
    var r := Capitalize(s);
    if |s| > 0 {
      var rr := Capitalize(r);
      forall i | 0 <= i < |s|
        ensures rr[i] == r[i]
      {
        if i == 0 {
          assert r[0] == ToUpper(s[0]);
        } else {
          assert r[i] == ToLower(s[i]);
        }
      }
      assert rr == r;
    }
  }

  function Digit(d: nat): char
    requires d < 10
  {
    "0123456789"[d]
  }

  /** `String(n)` for a non-negative integer: its decimal digits. */
  function DecimalString(n: nat): (r: string)
    ensures |r| >= 1
    ensures forall i :: 0 <= i < |r| ==> '0' <= r[i] <= '9'
    ensures n < 10 ==> |r| == 1
    ensures 10 <= n < 100 ==> |r| == 2
    ensures 1000 <= n < 10000 ==> |r| == 4
  {
    if n < 10 then [Digit(n)] else DecimalString(n / 10) + [Digit(n % 10)]
  }

  /** Reads decimal digits back into a number. */
  function ParseDecimal(s: string): nat
    requires forall i :: 0 <= i < |s| ==> '0' <= s[i] <= '9'
  {
    if |s| == 0 then 0
    else ParseDecimal(s[..|s| - 1]) * 10 + (s[|s| - 1] as int - '0' as int)
  }

  /** A digit character reads back as its value. */
  lemma DigitValue(d: nat)
    requires d < 10
    ensures '0' <= Digit(d) <= '9' && Digit(d) as int - '0' as int == d
  {
  }

  /** One more digit at the end multiplies by ten and adds it. */
  lemma ParseSnoc(s: string, d: nat)
    requires d < 10 && forall i :: 0 <= i < |s| ==> '0' <= s[i] <= '9'
    ensures ParseDecimal(s + [Digit(d)]) == ParseDecimal(s) * 10 + d
  {
    var t := s + [Digit(d)];
    DigitValue(d);
    assert t[..|t| - 1] == s;
    assert t[|t| - 1] == Digit(d);
  }

  /** `String(n)` loses nothing: parsing it gives `n` back. */
  lemma {:induction false} DecimalRoundTrip(n: nat)
    ensures ParseDecimal(DecimalString(n)) == n
  {
    if n >= 10 {
      DecimalRoundTrip(n / 10);
      ParseSnoc(DecimalString(n / 10), n % 10);
    }
  }

  /** `String(n).padStart(2, '0')`. */
  function PadTwo(n: nat): (r: string)
    ensures n < 100 ==> |r| == 2 && forall i :: 0 <= i < 2 ==> '0' <= r[i] <= '9'
    ensures n < 100 ==> ParseDecimal(r) == n
  {
    var d := DecimalString(n);
    DecimalRoundTrip(n);
    if |d| < 2 then
      assert ['0'] + d == "0" + d;
      assert (['0'] + d)[..1] == "0";
      ['0'] + d
    else d
  }
}
