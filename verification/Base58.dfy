/** Base58 and Base58Check. */
module Base58 {
  import opened Types

  // ---- positional notation ----

  ghost predicate AreDigits(ds: seq<int>, base: nat) {
    forall i :: 0 <= i < |ds| ==> 0 <= ds[i] < base
  }

  /** The number written by digits, most significant first. */
  function Value(ds: seq<nat>, base: nat): nat {
    if ds == [] then 0 else Value(ds[..|ds| - 1], base) * base + ds[|ds| - 1]
  }

  /** The shortest digits of a number, most significant first; none for 0. */
  function Digits(v: nat, base: nat): (ds: seq<nat>)
    requires base >= 2
    ensures AreDigits(ds, base)
  {
    if v == 0 then [] else (Shrinks(v, base); Digits(v / base, base)) + [v % base]
  }

  lemma Shrinks(v: nat, base: nat)
    requires base >= 2 && v > 0
    ensures v / base < v
  {
  }

  /** How many digits at the front are 0. */
  function Leading(ds: seq<nat>): (n: nat)
    ensures n <= |ds|
  {
    if ds == [] || ds[0] != 0 then 0 else 1 + Leading(ds[1..])
  }

  function Nulls(n: nat): (ds: seq<nat>)
    ensures |ds| == n && forall i :: 0 <= i < n ==> ds[i] == 0
  {
    seq(n, i => 0)
  }

  /** The leading zeros and the value determine the digits. */
  lemma {:induction false} Canonical(ds: seq<nat>, base: nat)
    requires base >= 2 && AreDigits(ds, base)
    ensures ds == Nulls(Leading(ds)) + Digits(Value(ds, base), base)
    ensures Value(ds, base) == 0 <==> Leading(ds) == |ds|
  {
    hide Digits, Nulls;
    if ds == [] {
      NoDigits(base);
    } else {
      var pre, d := ds[..|ds| - 1], ds[|ds| - 1];
      assert AreDigits(pre, base);
      assert ds == pre + [d];
      Canonical(pre, base);
      LeadingPush(pre, d);
      DivMod(Value(pre, base), base, d);
      DigitsPush(Leading(pre), Value(pre, base), base, d);
    }
  }

  lemma NoDigits(base: nat)
    requires base >= 2
    ensures Digits(0, base) == [] && Nulls(0) == []
  {
  }

  /** Another digit at the end: a number's last digit, or one more leading zero. */
  lemma DigitsPush(n: nat, v: nat, base: nat, d: nat)
    requires base >= 2 && d < base
    ensures (Nulls(n) + Digits(v, base)) + [d]
         == if v == 0 && d == 0 then Nulls(n + 1) + Digits(0, base) else Nulls(n) + Digits(v * base + d, base)
  {
    DivMod(v, base, d);
    if v == 0 && d == 0 {
      assert Nulls(n + 1) == Nulls(n) + [0];
    } else {
      assert Digits(v * base + d, base) == Digits(v, base) + [d];
    }
  }

  lemma DivMod(v: nat, base: nat, d: nat)
    requires base >= 2 && d < base
    ensures (v * base + d) / base == v && (v * base + d) % base == d
    ensures v * base + d == 0 <==> v == 0 && d == 0
  {
    var x := v * base + d;
    Product(v, base);
    UniqueDivision(base, x / base, x % base, v, d);
  }

  lemma UniqueDivision(base: nat, q: int, r: nat, v: nat, d: nat)
    requires r < base && d < base && q >= 0 && q * base + r == v * base + d
    ensures q == v && r == d
  {
    if q > v {
      Distributes(q, v, base);
      Product(q - v, base);
    } else if q < v {
      Distributes(v, q, base);
      Product(v - q, base);
    }
  }

  lemma Product(a: nat, b: nat)
    ensures a * b >= 0 && (a >= 1 ==> a * b >= b)
  {
    if a >= 1 {
      assert a * b == b + (a - 1) * b;
    }
  }

  lemma Distributes(a: nat, b: nat, c: nat)
    requires a >= b
    ensures a * c - b * c == (a - b) * c
  {
  }

  lemma {:induction false} LeadingPush(pre: seq<nat>, d: nat)
    ensures Leading(pre + [d]) == if Leading(pre) == |pre| && d == 0 then |pre| + 1 else Leading(pre)
  {
    if pre == [] {
      assert pre + [d] == [d] && [d][1..] == [];
    } else {
      assert (pre + [d])[1..] == pre[1..] + [d];
      LeadingPush(pre[1..], d);
    }
  }

  /** Zeros in front of the digits of v: the value is v and the zeros are all the leading ones. */
  lemma {:induction false} Written(n: nat, v: nat, base: nat)
    requires base >= 2
    ensures Value(Nulls(n) + Digits(v, base), base) == v && Leading(Nulls(n) + Digits(v, base)) == n
  {
    if v == 0 {
      AllNulls(n, base);
      assert Nulls(n) + [] == Nulls(n);
    } else {
      Shrinks(v, base);
      Written(n, v / base, base);
      var pre, d := Nulls(n) + Digits(v / base, base), v % base;
      assert Nulls(n) + Digits(v, base) == pre + [d];
      ValuePush(pre, d, base);
      LeadingPush(pre, d);
      Divided(v, base);
      assert v / base > 0 ==> Digits(v / base, base) != [];
    }
  }

  lemma ValuePush(pre: seq<nat>, d: nat, base: nat)
    ensures Value(pre + [d], base) == Value(pre, base) * base + d
  {
    assert (pre + [d])[..|pre|] == pre;
  }

  lemma Divided(v: nat, base: nat)
    requires base >= 2
    ensures v == (v / base) * base + v % base && (v > 0 ==> v / base > 0 || v % base > 0)
  {
  }

  lemma {:induction false} AllNulls(n: nat, base: nat)
    ensures Value(Nulls(n), base) == 0 && Leading(Nulls(n)) == n
  {
    if n > 0 {
      AllNulls(n - 1, base);
      assert Nulls(n)[..n - 1] == Nulls(n - 1) == Nulls(n)[1..];
    }
  }

  // ---- the alphabet ----

  /** The digit of a character of 123456789ABCDEFGHJKLMNPQRSTUVWXYZabcdefghijkmnopqrstuvwxyz,
      None for any other character. */
  function CharValue(c: char): (r: Option<nat>)
    ensures r.Some? ==> r.value < 58 && c == CharOf(r.value)
  {
    if '1' <= c <= '9' then Some(c as int - '1' as int)
    else if 'A' <= c <= 'H' then Some(c as int - 'A' as int + 9)
    else if 'J' <= c <= 'N' then Some(c as int - 'J' as int + 17)
    else if 'P' <= c <= 'Z' then Some(c as int - 'P' as int + 22)
    else if 'a' <= c <= 'k' then Some(c as int - 'a' as int + 33)
    else if 'm' <= c <= 'z' then Some(c as int - 'm' as int + 44)
    else None
  }

  function CharOf(d: nat): char
    requires d < 58
  {
    if d < 9 then (d + '1' as int) as char
    else if d < 17 then (d - 9 + 'A' as int) as char
    else if d < 22 then (d - 17 + 'J' as int) as char
    else if d < 33 then (d - 22 + 'P' as int) as char
    else if d < 44 then (d - 33 + 'a' as int) as char
    else (d - 44 + 'm' as int) as char
  }

  lemma CharRoundTrip(d: nat)
    requires d < 58
    ensures CharValue(CharOf(d)) == Some(d)
  {
  }

  /** The alphabet leaves out 0, I, O and l. */
  lemma AlphabetIs(d: nat)
    requires d < 58
    ensures CharOf(d) == ("123456789" + "ABCDEFGH" + "JKLMN" + "PQRSTUVWXYZ" + "abcdefghijk" + "mnopqrstuvwxyz")[d]
  {
  }

  // ---- encoding and decoding ----

  function Text(ds: seq<nat>): (s: string)
    requires AreDigits(ds, 58)
    ensures |s| == |ds| && forall i :: 0 <= i < |s| ==> s[i] == CharOf(ds[i])
  {
    seq(|ds|, i requires 0 <= i < |ds| => CharOf(ds[i]))
  }

  ghost predicate InAlphabet(s: string) {
    forall i :: 0 <= i < |s| ==> CharValue(s[i]).Some?
  }

  ghost function CharValues(s: string): (ds: seq<nat>)
    requires InAlphabet(s)
    ensures AreDigits(ds, 58) && |ds| == |s| && forall i :: 0 <= i < |s| ==> ds[i] == CharValue(s[i]).value
  {
    seq(|s|, i requires 0 <= i < |s| => CharValue(s[i]).value)
  }

  ghost function ToBytes(ds: seq<nat>): (b: Bytes)
    requires AreDigits(ds, 256)
    ensures b == ds
  {
    ds
  }

  /** What encoding gives: a '1' for each leading zero byte, then the value in base 58. */
  ghost function Encoded(b: Bytes): string {
    var ds := Nulls(Leading(b)) + Digits(Value(b, 256), 58);
    assert AreDigits(ds, 58);
    Text(ds)
  }

  /** What decoding gives: a zero byte for each leading '1', then the value in base 256. */
  ghost function Decoded(s: string): Option<Bytes> {
    if s == "" || !InAlphabet(s) then None
    else
      var ds := Nulls(Leading(CharValues(s))) + Digits(Value(CharValues(s), 58), 256);
      assert AreDigits(ds, 256);
      Some(ToBytes(ds))
  }

  /** decode(encode(b)) == b for every non-empty byte string. */
  lemma DecodeEncode(b: Bytes)
    requires b != []
    ensures Decoded(Encoded(b)) == Some(b)
  {
    var k, v := Leading(b), Value(b, 256);
    var ds, s := Nulls(k) + Digits(v, 58), Encoded(b);
    Canonical(b, 256);
    Written(k, v, 58);
    forall i | 0 <= i < |s|
      ensures CharValue(s[i]) == Some(ds[i])
    {
      CharRoundTrip(ds[i]);
    }
    assert CharValues(s) == ds;
  }

  /** encode(decode(s)) == s for every non-empty string over the alphabet. */
  lemma EncodeDecode(s: string)
    requires s != "" && InAlphabet(s)
    ensures Decoded(s).Some? && Encoded(Decoded(s).value) == s
  {
    var cs := CharValues(s);
    var k, v := Leading(cs), Value(cs, 58);
    var b := Decoded(s).value;
    Canonical(cs, 58);
    Written(k, v, 256);
    assert Nulls(Leading(b)) + Digits(Value(b, 256), 58) == cs;
    assert forall i :: 0 <= i < |s| ==> Encoded(b)[i] == CharOf(cs[i]) == s[i];
  }

  /** The shortest big-endian bytes of a number (the length is its bit length rounded up to bytes). */
  function IntToBytes(value: nat): (b: Bytes)
    ensures b == Digits(value, 256)
  {
    Digits(value, 256)
  }

  /** Decode text to big-endian bytes; None if it is empty or has an invalid character. */
  method Decode(txt: string) returns (r: Option<Bytes>)
    ensures r == Decoded(txt)
  {
    hide Digits, Nulls;
    if txt == "" {
      return None;
    }
    var value := 0;
    for i := 0 to |txt|
      invariant InAlphabet(txt[..i]) && value == Value(CharValues(txt[..i]), 58)
    {
      var digit := CharValue(txt[i]);
      if digit.None? {
        return None;
      }
      assert txt[..i + 1] == txt[..i] + [txt[i]];
      assert CharValues(txt[..i + 1])[..i] == CharValues(txt[..i]);
      value := value * 58 + digit.value;
    }
    assert txt[..|txt|] == txt;
    var result := IntToBytes(value);
    var count := LeadingOnes(txt);
    r := Some(Nulls(count) + result);
  }

  method LeadingOnes(txt: string) returns (count: nat)
    requires InAlphabet(txt)
    ensures count == Leading(CharValues(txt))
  {
    count := 0;
    while count < |txt| && txt[count] == '1'
      invariant count <= |txt| && Leading(CharValues(txt)) == count + Leading(CharValues(txt)[count..])
    {
      assert CharValues(txt)[count..][1..] == CharValues(txt)[count + 1..];
      count := count + 1;
    }
  }

  function Reversed(s: string): (r: string)
    ensures |r| == |s| && forall i :: 0 <= i < |s| ==> r[i] == s[|s| - 1 - i]
  {
    if s == "" then "" else Reversed(s[1..]) + [s[0]]
  }

  /** Encode big-endian bytes as text. */
  method Encode(bytes: Bytes) returns (r: string)
    ensures r == Encoded(bytes)
  {
    hide Digits, Value, Reversed, Text, Nulls;
    var txt := LowDigits(Value(bytes, 256));
    ghost var digits := Reversed(txt);
    var i := 0;
    NoOnes(digits);
    while i < |bytes| && bytes[i] == 0
      invariant i <= |bytes| && Leading(bytes) == i + Leading(bytes[i..])
      invariant Reversed(txt) == Text(Nulls(i)) + digits
    {
      assert bytes[i..][1..] == bytes[i + 1..];
      ReversedPush(txt, '1');
      OneMoreOne(i, digits);
      txt := txt + ['1'];
      i := i + 1;
    }
    TextConcat(Nulls(i), Digits(Value(bytes, 256), 58));
    r := Reversed(txt);
  }

  /** The base-58 digits of a number, least significant first. */
  method LowDigits(value0: nat) returns (txt: string)
    ensures Reversed(txt) == Text(Digits(value0, 58))
  {
    hide Reversed, Text;
    var value := value0;
    txt := "";
    NoText(value0);
    while value != 0
      invariant Text(Digits(value0, 58)) == Text(Digits(value, 58)) + Reversed(txt)
      decreases value
    {
      Shrinks(value, 58);
      ReversedPush(txt, CharOf(value % 58));
      LastDigit(value, Reversed(txt));
      txt := txt + [CharOf(value % 58)];
      value := value / 58;
    }
    NoText(value0);
  }

  lemma NoText(v: nat)
    ensures Text(Digits(v, 58)) + Reversed("") == Text(Digits(v, 58)) && Text(Digits(0, 58)) == ""
  {
  }

  lemma LastDigit(v: nat, rest: string)
    requires v > 0
    ensures Text(Digits(v, 58)) + rest == Text(Digits(v / 58, 58)) + ([CharOf(v % 58)] + rest)
  {
    hide Text, CharOf;
    TextPush(Digits(v / 58, 58), v % 58, rest);
  }

  lemma TextPush(a: seq<nat>, d: nat, rest: string)
    requires AreDigits(a, 58) && d < 58
    ensures AreDigits(a + [d], 58) && Text(a + [d]) + rest == Text(a) + ([CharOf(d)] + rest)
  {
    hide CharOf;
  }

  lemma NoOnes(rest: string)
    ensures Text(Nulls(0)) + rest == rest
  {
  }

  lemma OneMoreOne(i: nat, rest: string)
    ensures ['1'] + (Text(Nulls(i)) + rest) == Text(Nulls(i + 1)) + rest
  {
  }

  lemma TextConcat(a: seq<nat>, b: seq<nat>)
    requires AreDigits(a, 58) && AreDigits(b, 58)
    ensures AreDigits(a + b, 58) && Text(a + b) == Text(a) + Text(b)
  {
  }

  lemma {:induction false} ReversedPush(s: string, c: char)
    ensures Reversed(s + [c]) == [c] + Reversed(s)
  {
  }

  // ---- with a checksum ----

  /** Decode and strip a checksum: the first four bytes of the payload's hash. */
  method DecodeCheck(txt: string, hash: Bytes -> Bytes) returns (r: Option<Bytes>)
    ensures r == DecodedCheck(txt, hash)
    ensures forall p :: |hash(p)| >= 4 ==> (r == Some(p) <==> Decoded(txt) == Some(p + hash(p)[..4]))
  {
    hide Decoded;
    CheckedIs(txt, hash);
    var bytes := Decode(txt);
    if bytes.None? {
      return None;
    }
    var cut := if |bytes.value| >= 4 then |bytes.value| - 4 else 0;
    var result, check := bytes.value[..cut], bytes.value[cut..];
    if check != First4(hash(result)) {
      return None;
    }
    r := Some(result);
  }

  method EncodeCheck(payload: Bytes, hash: Bytes -> Bytes) returns (r: string)
    ensures r == EncodedCheck(payload, hash)
    ensures |hash(payload)| >= 4 ==> r == Encoded(payload + hash(payload)[..4])
  {
    r := Encode(payload + First4(hash(payload)));
  }

  function First4(h: Bytes): Bytes {
    if |h| >= 4 then h[..4] else h
  }

  ghost function EncodedCheck(payload: Bytes, hash: Bytes -> Bytes): string {
    Encoded(payload + First4(hash(payload)))
  }

  ghost function DecodedCheck(txt: string, hash: Bytes -> Bytes): Option<Bytes> {
    match Decoded(txt)
    case None => None
    case Some(b) =>
      var cut := if |b| >= 4 then |b| - 4 else 0;
      if b[cut..] == First4(hash(b[..cut])) then Some(b[..cut]) else None
  }

  /** What passes the check is the payload in front of the first four bytes of its hash. */
  lemma CheckedIs(txt: string, hash: Bytes -> Bytes)
    ensures forall p :: |hash(p)| >= 4 ==>
      (DecodedCheck(txt, hash) == Some(p) <==> Decoded(txt) == Some(p + hash(p)[..4]))
  {
    hide Decoded;
    if Decoded(txt).Some? {
      var b := Decoded(txt).value;
      var cut := if |b| >= 4 then |b| - 4 else 0;
      forall p: Bytes | |hash(p)| >= 4
        ensures DecodedCheck(txt, hash) == Some(p) <==> b == p + hash(p)[..4]
      {
        assert b == b[..cut] + b[cut..];
        if b == p + hash(p)[..4] {
          assert b[..cut] == p && b[cut..] == hash(p)[..4];
        }
      }
    }
  }

  /** The bytes 0 and 97 in base 58: a leading zero, then 97 = 58 + 39. */
  lemma SampleText()
    ensures Encoded([0, 97]) == "12g" && Decoded("12g") == Some([0, 97])
  {
    SampleDigits();
    SampleValue();
    hide Digits, Value, Leading, CharValue, Decoded;
    assert Encoded([0, 97]) == Text(Nulls(1) + [1, 39]);
    assert Nulls(1) + [1, 39] == [0, 1, 39];
    DecodeEncode([0, 97]);
  }

  lemma SampleDigits()
    ensures Digits(97, 58) == [1, 39]
  {
    assert Digits(1, 58) == [1];
    assert Digits(97, 58) == Digits(1, 58) + [39];
  }

  lemma SampleValue()
    ensures Value([0, 97], 256) == 97 && Leading([0, 97]) == 1
  {
    var b: seq<nat> := [0, 97];
    assert b[..1] == [0] && b[1..] == [97];
    assert b[..1][..0] == [];
    assert Value(b[..1], 256) == 0;
  }

  /** A payload comes back, whatever hash gives the checksum. */
  lemma CheckRoundTrip(payload: Bytes, hash: Bytes -> Bytes)
    requires |hash(payload)| >= 4
    ensures DecodedCheck(EncodedCheck(payload, hash), hash) == Some(payload)
  {
    var b := payload + First4(hash(payload));
    DecodeEncode(b);
    assert b[..|b| - 4] == payload;
  }

  /** Only the text that encodes a payload decodes to it. */
  lemma CheckUnique(txt: string, payload: Bytes, hash: Bytes -> Bytes)
    requires |hash(payload)| >= 4 && DecodedCheck(txt, hash) == Some(payload)
    ensures txt == EncodedCheck(payload, hash)
  {
    EncodeDecode(txt);
    var b := Decoded(txt).value;
    assert b == payload + First4(hash(payload));
  }
}
