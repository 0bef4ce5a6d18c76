/**
 * String and byte helpers with JavaScript semantics: digit stripping, `slice`,
 * `split`/`join`, decimal and hexadecimal rendering, and `trim`.
 */
module Text {
  import opened Wrappers
  import Seqs

  newtype byte = x: int | 0 <= x < 256

  /** JavaScript truthiness of an optional string: present and not empty. */
  predicate Truthy(s: Option<string>) {
    s.Some? && s.value != ""
  }

  // ---------------------------------------------------------------------------
  // Digits

  /** `\d` without the `u` flag: an ASCII decimal digit. */
  predicate IsDigit(c: char) {
    '0' <= c <= '9'
  }

  predicate AllDigits(s: string) {
    forall i :: 0 <= i < |s| ==> IsDigit(s[i])
  }

  /** `s.replace(/\D/g, '')`: the digit characters of `s`, in order. */
  function Digits(s: string): string {
    Seqs.Filter(s, IsDigit)
  }

  /** Stripping keeps only digits, keeps every digit, and leaves a digit string unchanged. */
  lemma DigitsSpec(s: string)
    ensures AllDigits(Digits(s))
    ensures forall c :: c in Digits(s) <==> c in s && IsDigit(c)
    ensures AllDigits(s) ==> Digits(s) == s
    ensures Digits(Digits(s)) == Digits(s)
  {
    forall c ensures c in Digits(s) <==> c in s && IsDigit(c) {
      Seqs.FilterMembership(s, IsDigit, c);
    }
    if AllDigits(s) {
      Seqs.FilterAll(s, IsDigit);
    }
    Seqs.FilterAll(Digits(s), IsDigit);
  }

  /** Stripping distributes over concatenation. */
  lemma DigitsAppend(a: string, b: string)
    ensures Digits(a + b) == Digits(a) + Digits(b)
  {
    Seqs.FilterAppend(a, b, IsDigit);
  }

  /** A string of digits is left as it is. */
  lemma DigitsKeep(s: string)
    requires AllDigits(s)
    ensures Digits(s) == s
  {
    Seqs.FilterAll(s, IsDigit);
  }

  /** A single non-digit disappears. */
  lemma DigitsDrop(c: char)
    requires !IsDigit(c)
    ensures Digits([c]) == []
  {
  }

  // ---------------------------------------------------------------------------
  // Slicing with JavaScript's clamping

  function Min(a: nat, b: nat): nat {
    if a <= b then a else b
  }

  /** `s.slice(0, n)`: the first `n` characters, or all of them when there are fewer. */
  function Take<T>(s: seq<T>, n: nat): (r: seq<T>)
    ensures |r| == Min(n, |s|)
    ensures r <= s
  {
    s[..Min(n, |s|)]
  }

  /** `s.slice(n)` for `n >= 0`: everything after the first `n` characters. */
  function Drop<T>(s: seq<T>, n: nat): (r: seq<T>)
    ensures |r| == |s| - Min(n, |s|)
    ensures Take(s, n) + r == s
  {
    s[Min(n, |s|)..]
  }

  /** `s.slice(start, end)` for non-negative bounds. */
  function Slice<T>(s: seq<T>, start: nat, end: nat): (r: seq<T>)
    ensures |r| <= |s| && |r| <= if end <= start then 0 else end - start
    ensures r == Drop(Take(s, end), start)
  {
    var hi := Min(end, |s|);
    s[Min(start, hi)..hi]
  }

  /** `s.slice(-n)` for `n > 0`: the last `n` characters, or all of them when there are fewer. */
  function TakeLast<T>(s: seq<T>, n: nat): (r: seq<T>)
    requires n > 0
    ensures |r| == Min(n, |s|)
    ensures s == s[..|s| - |r|] + r
  {
    if |s| <= n then s else s[|s| - n..]
  }

  // ---------------------------------------------------------------------------
  // split and join

  /** `s.split(sep)`: the pieces between separators; the empty string gives `[""]`. */
  function Split(s: string, sep: char): (r: seq<string>)
    ensures |r| >= 1
    ensures forall i :: 0 <= i < |r| ==> sep !in r[i]
  {
    if s == [] then [[]]
    else if s[0] == sep then [[]] + Split(s[1..], sep)
    else
      var rest := Split(s[1..], sep);
      [[s[0]] + rest[0]] + rest[1..]
  }

  /** `parts.join(sep)`. */
  function Join(parts: seq<string>, sep: char): string {
    if |parts| == 0 then []
    else if |parts| == 1 then parts[0]
    else parts[0] + [sep] + Join(parts[1..], sep)
  }

  /** `.filter(Boolean)` on strings: drop the empty ones. */
  function NonEmpty(parts: seq<string>): seq<string> {
    Seqs.Filter(parts, (p: string) => p != [])
  }

  /** Splitting and joining again gives back the original string. */
  lemma {:induction false} JoinSplit(s: string, sep: char)
    ensures Join(Split(s, sep), sep) == s
  {
    if s != [] {
      JoinSplit(s[1..], sep);
      var rest := Split(s[1..], sep);
      if s[0] != sep && |rest| > 1 {
        assert Join(rest, sep) == rest[0] + [sep] + Join(rest[1..], sep);
        assert ([[s[0]] + rest[0]] + rest[1..])[1..] == rest[1..];
      }
    }
  }

  /** A separator-free piece followed by a separator splits off as the first piece. */
  lemma {:induction false} SplitPrefix(p: string, sep: char, t: string)
    requires sep !in p
    ensures Split(p + [sep] + t, sep) == [p] + Split(t, sep)
  {
    if p == [] {
      assert p + [sep] + t == [sep] + t;
      assert ([sep] + t)[1..] == t;
    } else {
      assert (p + [sep] + t)[0] == p[0];
      assert (p + [sep] + t)[1..] == p[1..] + [sep] + t;
      SplitPrefix(p[1..], sep, t);
      assert [p[0]] + p[1..] == p;
    }
  }

  /** A separator-free string splits into itself. */
  lemma {:induction false} SplitSingle(p: string, sep: char)
    requires sep !in p
    ensures Split(p, sep) == [p]
  {
    if p != [] {
      SplitSingle(p[1..], sep);
      assert [p[0]] + p[1..] == p;
    }
  }

  /** Joining separator-free pieces and splitting again gives back the pieces. */
  lemma {:induction false} SplitJoin(parts: seq<string>, sep: char)
    requires |parts| >= 1
    requires forall i :: 0 <= i < |parts| ==> sep !in parts[i]
    ensures Split(Join(parts, sep), sep) == parts
  {
    if |parts| == 1 {
      SplitSingle(parts[0], sep);
    } else {
      SplitJoin(parts[1..], sep);
      SplitPrefix(parts[0], sep, Join(parts[1..], sep));
      assert [parts[0]] + parts[1..] == parts;
    }
  }

  /**
   * Joining non-empty, separator-free pieces and then splitting and dropping
   * empty pieces recovers the pieces exactly, including the empty list.
   */
  lemma JoinThenParse(parts: seq<string>, sep: char)
    requires forall i :: 0 <= i < |parts| ==> parts[i] != [] && sep !in parts[i]
    ensures NonEmpty(Split(Join(parts, sep), sep)) == parts
  {
    if parts == [] {
      assert Split(Join(parts, sep), sep) == [[]];
    } else {
      SplitJoin(parts, sep);
      Seqs.FilterAll(parts, (p: string) => p != []);
    }
  }

  // ---------------------------------------------------------------------------
  // Decimal rendering

  function DigitChar(d: nat): (c: char)
    requires d < 10
    ensures IsDigit(c) && DigitValue(c) == d
  {
    ('0' as int + d) as char
  }

  function DigitValue(c: char): nat {
    if IsDigit(c) then (c as int) - ('0' as int) else 0
  }

  /** `String(n)` for a non-negative integer: its decimal digits without leading zeros. */
  function Decimal(n: nat): (r: string)
    ensures |r| >= 1 && AllDigits(r)
  {
    if n < 10 then [DigitChar(n)] else Decimal(n / 10) + [DigitChar(n % 10)]
  }

  /** `String(n)` for any integer. */
  function IntText(n: int): string {
    if n < 0 then "-" + Decimal(-n) else Decimal(n)
  }

  /** The number a string of decimal digits denotes. */
  function DecimalValue(s: string): nat {
    if s == [] then 0 else DecimalValue(s[..|s| - 1]) * 10 + DigitValue(s[|s| - 1])
  }

  /** Reading back the rendered digits gives the number. */
  lemma {:induction false} DecimalRoundTrip(n: nat)
    ensures DecimalValue(Decimal(n)) == n
  {
    if n >= 10 {
      DecimalRoundTrip(n / 10);
      var s := Decimal(n);
      assert s[..|s| - 1] == Decimal(n / 10);
    }
  }

  // ---------------------------------------------------------------------------
  // Hexadecimal rendering

  predicate IsHexDigit(c: char) {
    '0' <= c <= '9' || 'a' <= c <= 'f'
  }

  /** The lower-case hexadecimal digit for a value below 16. */
  function HexDigit(v: nat): (c: char)
    requires v < 16
    ensures IsHexDigit(c) && HexValue(c) == v
  {
    if v < 10 then ('0' as int + v) as char else ('a' as int + v - 10) as char
  }

  function HexValue(c: char): nat {
    if '0' <= c <= '9' then (c as int) - ('0' as int)
    else if 'a' <= c <= 'f' then (c as int) - ('a' as int) + 10
    else 0
  }

  /** `buffer.toString('hex')`: two lower-case hexadecimal digits per byte. */
  function Hex(bytes: seq<byte>): (r: string)
    ensures |r| == 2 * |bytes|
    ensures forall i :: 0 <= i < |r| ==> IsHexDigit(r[i])
  {
    if bytes == [] then []
    else [HexDigit(bytes[0] as int / 16), HexDigit(bytes[0] as int % 16)] + Hex(bytes[1..])
  }

  /** `Buffer.from(s, 'hex')` on a well-formed string of even length. */
  function Unhex(s: string): seq<byte>
    requires |s| % 2 == 0
  {
    if s == [] then []
    else [(HexValue(s[0]) * 16 + HexValue(s[1])) as byte] + Unhex(s[2..])
  }

  /** Hex rendering loses nothing: decoding it gives back the bytes. */
  lemma {:induction false} HexRoundTrip(bytes: seq<byte>)
    ensures Unhex(Hex(bytes)) == bytes
  {
    if bytes != [] {
      HexRoundTrip(bytes[1..]);
      assert Hex(bytes)[2..] == Hex(bytes[1..]);
    }
  }

  // ---------------------------------------------------------------------------
  // trim

  /** The characters `String.prototype.trim` removes: WhiteSpace and LineTerminator. */
  predicate IsJsWhitespace(c: char) {
    c == '\t' || c == '\n' || c == '\U{000B}' || c == '\U{000C}' || c == '\r' || c == ' '
    || c == '\U{00A0}' || c == '\U{1680}' || ('\U{2000}' <= c <= '\U{200A}')
    || c == '\U{2028}' || c == '\U{2029}' || c == '\U{202F}' || c == '\U{205F}'
    || c == '\U{3000}' || c == '\U{FEFF}'
  }

  predicate IsBlank(s: string) {
    forall i :: 0 <= i < |s| ==> IsJsWhitespace(s[i])
  }

  function TrimStart(s: string): (r: string)
    ensures |r| <= |s| && r == s[|s| - |r|..]
    ensures IsBlank(s[..|s| - |r|])
  {
    if s != [] && IsJsWhitespace(s[0]) then TrimStart(s[1..]) else s
  }

  function TrimEnd(s: string): (r: string)
    ensures |r| <= |s| && r == s[..|r|]
  {
    if s != [] && IsJsWhitespace(s[|s| - 1]) then TrimEnd(s[..|s| - 1]) else s
  }

  /** `s.trim()`. */
  function Trim(s: string): string {
    TrimEnd(TrimStart(s))
  }

  lemma {:induction false} TrimEndBlank(s: string)
    ensures TrimEnd(s) == [] <==> IsBlank(s)
  {
    if s != [] && IsJsWhitespace(s[|s| - 1]) {
      TrimEndBlank(s[..|s| - 1]);
      assert IsBlank(s) <==> IsBlank(s[..|s| - 1]);
    }
  }

  /** A string trims to nothing exactly when all of its characters are white space. */
  lemma TrimEmptyIffBlank(s: string)
    ensures Trim(s) == [] <==> IsBlank(s)
    ensures Trim(s) != [] ==> s != []
  {
    var t := TrimStart(s);
    TrimEndBlank(t);
    assert s == s[..|s| - |t|] + t;
    assert IsBlank(s) <==> IsBlank(t);
  }
}
