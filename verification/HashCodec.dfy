/**
 Fingerprint hashes: signed 64-bit integers stored as such, written as sixteen hex digits of their two's complement, and
 read by two parsers, one for stored JSON and one for requests. Strings are sequences of bytes.
 */
module HashCodec {

  import opened Wrappers

  const TWO_63: int := 0x8000_0000_0000_0000
  const TWO_64: int := 0x1_0000_0000_0000_0000

  newtype int64 = x: int | -0x8000_0000_0000_0000 <= x < 0x8000_0000_0000_0000

  /** The conversions between int64 and uint64. */
  function Unsigned(h: int64): (n: int)
    ensures 0 <= n < TWO_64
  {
    if h < 0 then h as int + TWO_64 else h as int
  }

  function Signed(n: int): (h: int64)
    requires 0 <= n < TWO_64
    ensures Unsigned(h) == n
  {
    if n >= TWO_63 then (n - TWO_64) as int64 else n as int64
  }

  // ----- hex digits

  function LowerDigit(d: int): char
    requires 0 <= d < 16
  {
    "0123456789abcdef"[d]
  }

  /** The digit a character stands for, in either case. */
  function DigitOf(c: char): (d: Option<int>)
    ensures d.Some? ==> 0 <= d.value < 16
  {
    if '0' <= c <= '9' then Some(c as int - '0' as int)
    else if 'a' <= c <= 'f' then Some(c as int - 'a' as int + 10)
    else if 'A' <= c <= 'F' then Some(c as int - 'A' as int + 10)
    else None
  }

  /** The hex digits and no others, in both cases. */
  lemma DigitsAre(d: int, c: char)
    ensures 0 <= d < 16 ==> DigitOf("0123456789abcdef"[d]) == Some(d) == DigitOf("0123456789ABCDEF"[d])
    ensures DigitOf(c).Some? ==> c == "0123456789abcdef"[DigitOf(c).value] || c == "0123456789ABCDEF"[DigitOf(c).value]
  {
  }

  predicate AllHex(s: string) {
    forall i :: 0 <= i < |s| ==> DigitOf(s[i]).Some?
  }

  /** Sixteen lower-case hex digits. */
  predicate Canonical(s: string) {
    |s| == 16 && AllLower(s)
  }

  predicate IsLower(c: char) {
    '0' <= c <= '9' || 'a' <= c <= 'f'
  }

  predicate AllLower(s: string) {
    forall i :: 0 <= i < |s| ==> IsLower(s[i])
  }

  function HexValue(s: string): (n: nat)
    requires AllHex(s)
  {
    if s == [] then 0 else HexValue(s[..|s| - 1]) * 16 + DigitOf(s[|s| - 1]).value
  }

  // ----- printing

  /** The digits of %x, without leading zeros. */
  function Digits(n: nat): (s: string)
    ensures s != [] && AllLower(s) && AllHex(s) && HexValue(s) == n
  {
    if n < 16 then
      var s := [LowerDigit(n)];
      assert s[..0] == [] && DigitOf(s[0]) == Some(n);
      s
    else
      var high := Digits(n / 16);
      var s := high + [LowerDigit(n % 16)];
      assert s[..|s| - 1] == high && DigitOf(s[|s| - 1]) == Some(n % 16);
      s
  }

  function Zeros(k: nat): (s: string)
    ensures |s| == k && forall i :: 0 <= i < k ==> s[i] == '0'
  {
    seq(k, i => '0')
  }

  /** Left padding to a width, as in %016x. */
  function Padded(s: string, width: nat): string {
    if |s| < width then Zeros(width - |s|) + s else s
  }

  /** Hex. */
  function Hex(h: int64): string {
    Padded(Digits(Unsigned(h)), 16)
  }

  /** MarshalJSON and MarshalFingerprintHash. */
  function Marshal(h: int64): string {
    "\"" + Padded(Digits(Unsigned(h)), 16) + "\""
  }

  function Pow16(k: nat): nat {
    if k == 0 then 1 else 16 * Pow16(k - 1)
  }

  lemma {:induction false} DigitsLength(n: nat, k: nat)
    requires k > 0 && n < Pow16(k)
    ensures |Digits(n)| <= k
  {
    if n >= 16 {
      assert k > 1;
      DigitsLength(n / 16, k - 1);
    }
  }

  lemma {:induction false} ZerosAddNothing(k: nat, s: string)
    requires AllHex(s)
    ensures AllHex(Zeros(k) + s) && HexValue(Zeros(k) + s) == HexValue(s)
    decreases |s|, k
  {
    var z := Zeros(k) + s;
    forall i | 0 <= i < |z| ensures DigitOf(z[i]).Some? {
      assert i >= k ==> z[i] == s[i - k];
    }
    if s == [] {
      if k > 0 {
        ZerosAddNothing(k - 1, []);
        assert z[..k - 1] == Zeros(k - 1) + [];
      }
    } else {
      ZerosAddNothing(k, s[..|s| - 1]);
      assert z[..|z| - 1] == Zeros(k) + s[..|s| - 1];
    }
  }

  lemma SixteenDigits()
    ensures Pow16(16) == TWO_64
  {
    assert Pow16(4) == 0x10000;
    assert Pow16(8) == 0x1_0000_0000;
    assert Pow16(12) == 0x1_0000_0000_0000;
  }

  /** Whatever the sign, printing gives sixteen lower-case hex digits of the two's complement. */
  lemma HexIsCanonical(h: int64)
    ensures Canonical(Hex(h)) && AllHex(Hex(h)) && HexValue(Hex(h)) == Unsigned(h)
    ensures HexValue(Hex(h)) == h as int + (if h < 0 then 0x1_0000_0000_0000_0000 else 0)
    ensures Marshal(h) == "\"" + Hex(h) + "\""
  {
    SixteenDigits();
    DigitsLength(Unsigned(h), 16);
    ZerosAddNothing(16 - |Digits(Unsigned(h))|, Digits(Unsigned(h)));
  }

  // ----- parsing

  /** strconv.ParseUint(s, 16, 64): the reasons for failing are not told apart. */
  function ParseUint(s: string): (r: Option<int>)
    ensures r.Some? ==> 0 <= r.value < TWO_64
  {
    if s == [] || !AllHex(s) || HexValue(s) >= TWO_64 then None else Some(HexValue(s))
  }

  /** strings.Trim of quotes. */
  function TrimQuotes(s: string): string {
    if s != [] && s[0] == '"' then TrimQuotes(s[1..])
    else if s != [] && s[|s| - 1] == '"' then TrimQuotes(s[..|s| - 1])
    else s
  }

  /** strings.ReplaceAll of quotes by nothing. */
  function WithoutQuotes(s: string): string {
    if s == [] then []
    else if s[0] == '"' then WithoutQuotes(s[1..])
    else [s[0]] + WithoutQuotes(s[1..])
  }

  datatype Error = NotAString | InvalidHash

  function Read(s: string): Result<int64, Error> {
    var n := ParseUint(s);
    if n.None? then Err(InvalidHash) else Ok(Signed(n.value))
  }

  function ReadJson(data: string): Result<int64, Error> {
    Read(TrimQuotes(data))
  }

  /** A hash that is unmarshalled in place. */
  class HashVar {
    var hash: int64

    /** UnmarshalJSON. */
    method UnmarshalJSON(data: string) returns (err: Option<Error>)
      modifies this
      ensures match ReadJson(data)
              case Ok(h) => err == None && hash == h
              case Err(e) => err == Some(e) && hash == old(hash)
    {
      var str := TrimQuotes(data);
      var hashUint := ParseUint(str);
      if hashUint.None? {
        return Some(InvalidHash);
      }
      hash := Signed(hashUint.value);
      return None;
    }
  }

  datatype Input = Text(s: string) | NotText

  /** UnmarshalFingerprintHash. What has more than sixteen characters is read as zero. */
  function UnmarshalFingerprintHash(v: Input): Result<int64, Error> {
    match v
    case NotText => Err(NotAString)
    case Text(str) =>
      var withoutQuotes := WithoutQuotes(str);
      if |withoutQuotes| > 16 then Ok(0) else Read(withoutQuotes)
  }

  predicate QuoteFree(s: string) {
    forall i :: 0 <= i < |s| ==> s[i] != '"'
  }

  lemma {:induction false} QuotesGone(s: string)
    requires QuoteFree(s)
    ensures TrimQuotes(s) == s == WithoutQuotes(s)
    decreases |s|
  {
    if s != [] {
      QuotesGone(s[1..]);
    }
  }

  lemma {:induction false} WithoutQuotesAtEnd(s: string)
    requires QuoteFree(s)
    ensures WithoutQuotes(s + "\"") == s
    decreases |s|
  {
    if s == [] {
      assert WithoutQuotes("\"") == WithoutQuotes("\""[1..]);
    } else {
      assert (s + "\"")[1..] == s[1..] + "\"";
      WithoutQuotesAtEnd(s[1..]);
    }
  }

  predicate AllQuotes(s: string) {
    forall i :: 0 <= i < |s| ==> s[i] == '"'
  }

  /** Neither starts nor ends with a quote. */
  predicate IsTrimmed(s: string) {
    s == [] || (s[0] != '"' && s[|s| - 1] != '"')
  }

  /** What is trimmed are all quotes on either side and nothing else. */
  lemma {:induction false} TrimsOuterQuotes(a: string, s: string, b: string)
    requires AllQuotes(a) && IsTrimmed(s) && AllQuotes(b)
    ensures TrimQuotes(a + s + b) == s
    decreases |a| + |b|
  {
    var t := a + s + b;
    if a != [] {
      TrimsOuterQuotes(a[1..], s, b);
      assert t[0] == a[0] && t[1..] == a[1..] + s + b;
    } else if b != [] {
      var init := b[..|b| - 1];
      if s == [] {
        TrimsOuterQuotes(a, s, b[1..]);
        assert t == b && t[1..] == a + s + b[1..];
      } else {
        TrimsOuterQuotes(a, s, init);
        assert t[0] == s[0] && t[|t| - 1] == b[|b| - 1] && t[..|t| - 1] == a + s + init;
      }
    } else {
      assert t == s;
    }
  }

  /** What is replaced are all quotes, wherever they are, and nothing else. */
  lemma {:induction false} DropsEveryQuote(s: string, t: string)
    ensures QuoteFree(WithoutQuotes(s))
    ensures QuoteFree(s) ==> WithoutQuotes(s + "\"" + t) == s + WithoutQuotes(t)
    decreases |s|
  {
    if s != [] {
      DropsEveryQuote(s[1..], t);
      assert (s + "\"" + t)[1..] == s[1..] + "\"" + t;
    } else {
      assert ("\"" + t)[1..] == t && [] + "\"" + t == "\"" + t;
    }
  }

  /** Both parsers see through a pair of quotes. */
  lemma QuotedReads(s: string)
    requires QuoteFree(s)
    ensures TrimQuotes("\"" + s + "\"") == s == WithoutQuotes("\"" + s + "\"")
  {
    var q := "\"" + s + "\"";
    assert q[1..] == s + "\"";
    WithoutQuotesAtEnd(s);
    QuotesGone(s);
    var t := s + "\"";
    assert t[..|t| - 1] == s;
    assert TrimQuotes(t) == s by {
      if s == [] {
        assert t[1..] == [];
      }
    }
  }

  // ----- round trips

  /** Printing and reading give the value back, quoted or not, by either parser. */
  lemma RoundTrip(h: int64)
    ensures ReadJson(Marshal(h)) == Ok(h) && ReadJson(Hex(h)) == Ok(h)
    ensures UnmarshalFingerprintHash(Text(Marshal(h))) == Ok(h) && UnmarshalFingerprintHash(Text(Hex(h))) == Ok(h)
  {
    HexIsCanonical(h);
    QuotedReads(Hex(h));
    QuotesGone(Hex(h));
    assert Signed(Unsigned(h)) == h;
  }

  lemma HexIsInjective(g: int64, h: int64)
    requires Hex(g) == Hex(h)
    ensures g == h
  {
    RoundTrip(g);
    RoundTrip(h);
  }

  /** Go's order of strings. */
  predicate Less(a: string, b: string) {
    b != [] && (a == [] || a[0] < b[0] || (a[0] == b[0] && Less(a[1..], b[1..])))
  }

  lemma LastDigit(s: string, c: char)
    requires AllHex(s) && DigitOf(c).Some?
    ensures AllHex(s + [c]) && HexValue(s + [c]) == HexValue(s) * 16 + DigitOf(c).value
  {
    assert (s + [c])[..|s|] == s;
  }

  lemma Shifted(v: int, p: int, u: int, d: int)
    ensures (v * p + u) * 16 + d == v * (16 * p) + (u * 16 + d)
  {
  }

  lemma {:induction false} FirstDigit(c: char, s: string)
    requires DigitOf(c).Some? && AllHex(s)
    ensures AllHex([c] + s) && HexValue([c] + s) == DigitOf(c).value * Pow16(|s|) + HexValue(s)
    decreases |s|
  {
    if s == [] {
      assert [c] + s == [] + [c];
      LastDigit([], c);
    } else {
      var n := |s| - 1;
      var t, last := s[..n], s[n];
      FirstDigit(c, t);
      LastDigit([c] + t, last);
      assert ([c] + t) + [last] == [c] + s;
      Shifted(DigitOf(c).value, Pow16(n), HexValue(t), DigitOf(last).value);
    }
  }

  lemma {:induction false} BelowPower(s: string)
    requires AllHex(s)
    ensures HexValue(s) < Pow16(|s|)
  {
    if s != [] {
      BelowPower(s[..|s| - 1]);
    }
  }

  lemma LeadingDecides(x: nat, y: nat, p: nat, u: nat, v: nat)
    requires u < p && v < p
    ensures x * p + u < y * p + v <==> x < y || (x == y && u < v)
  {
    if x < y {
      assert (x + 1) * p <= y * p;
    } else if y < x {
      assert (y + 1) * p <= x * p;
    }
  }

  lemma DigitOrder(c: char, d: char)
    requires IsLower(c) && IsLower(d)
    ensures DigitOf(c).Some? && DigitOf(d).Some?
    ensures c < d <==> DigitOf(c).value < DigitOf(d).value
    ensures c == d <==> DigitOf(c).value == DigitOf(d).value
  {
  }

  lemma HeadDecides(c: char, s: string, d: char, t: string)
    requires |s| == |t| && AllHex(s) && AllHex(t) && IsLower(c) && IsLower(d)
    ensures AllHex([c] + s) && AllHex([d] + t)
    ensures HexValue([c] + s) < HexValue([d] + t) <==> c < d || (c == d && HexValue(s) < HexValue(t))
  {
    DigitOrder(c, d);
    FirstDigit(c, s);
    FirstDigit(d, t);
    BelowPower(s);
    BelowPower(t);
    LeadingDecides(DigitOf(c).value, DigitOf(d).value, Pow16(|s|), HexValue(s), HexValue(t));
  }

  lemma {:induction false} OrderOfDigits(a: string, b: string)
    requires |a| == |b| && AllLower(a) && AllLower(b) && AllHex(a) && AllHex(b)
    ensures Less(a, b) <==> HexValue(a) < HexValue(b)
    decreases |a|
  {
    if a != [] {
      OrderOfDigits(a[1..], b[1..]);
      HeadDecides(a[0], a[1..], b[0], b[1..]);
      assert a == [a[0]] + a[1..] && b == [b[0]] + b[1..];
    }
  }

  /** Strings are in the order of the values among hashes of one sign, and those of the negative ones come last. */
  lemma HexOrder(g: int64, h: int64)
    ensures Less(Hex(g), Hex(h)) <==> if (g < 0) == (h < 0) then g < h else h < 0
  {
    HexIsCanonical(g);
    HexIsCanonical(h);
    OrderOfDigits(Hex(g), Hex(h));
  }

  function Lower(c: char): char {
    if 'A' <= c <= 'Z' then c - 'A' + 'a' else c
  }

  function ToLower(s: string): (r: string)
    ensures |r| == |s| && forall i :: 0 <= i < |s| ==> r[i] == Lower(s[i])
  {
    seq(|s|, i requires 0 <= i < |s| => Lower(s[i]))
  }

  lemma {:induction false} LowerReadsAlike(s: string)
    requires AllHex(s)
    ensures AllHex(ToLower(s)) && AllLower(ToLower(s)) && HexValue(ToLower(s)) == HexValue(s)
    decreases |s|
  {
    var r := ToLower(s);
    forall i | 0 <= i < |s| ensures DigitOf(r[i]) == DigitOf(s[i]) {}
    if s != [] {
      LowerReadsAlike(s[..|s| - 1]);
      assert r[..|s| - 1] == ToLower(s[..|s| - 1]);
    }
  }

  lemma LastOfValue(s: string)
    requires s != [] && AllHex(s)
    ensures AllHex(s[..|s| - 1]) && HexValue(s) / 16 == HexValue(s[..|s| - 1])
    ensures DigitOf(s[|s| - 1]).Some? && HexValue(s) % 16 == DigitOf(s[|s| - 1]).value
  {
  }

  lemma LowerPrefix(s: string)
    requires s != [] && AllLower(s)
    ensures AllLower(s[..|s| - 1]) && IsLower(s[|s| - 1]) && s == s[..|s| - 1] + [s[|s| - 1]]
  {
  }

  /** Two strings of the same length with the same value differ only in case. */
  lemma {:induction false} SameValue(a: string, b: string)
    requires |a| == |b| && AllLower(a) && AllLower(b) && AllHex(a) && AllHex(b) && HexValue(a) == HexValue(b)
    ensures a == b
    decreases |a|
  {
    if a != [] {
      LastOfValue(a);
      LastOfValue(b);
      LowerPrefix(a);
      LowerPrefix(b);
      DigitOrder(a[|a| - 1], b[|b| - 1]);
      SameValue(a[..|a| - 1], b[..|b| - 1]);
    }
  }

  lemma ZerosAreLower(k: nat, s: string)
    requires AllLower(s)
    ensures AllLower(Zeros(k) + s)
  {
    var z := Zeros(k) + s;
    forall i | 0 <= i < |z| ensures IsLower(z[i]) {
      assert i >= k ==> z[i] == s[i - k];
    }
  }

  lemma PaddedIsZeros(t: string)
    requires |t| <= 16
    ensures Padded(t, 16) == Zeros(16 - |t|) + t && |Padded(t, 16)| == 16
  {
  }

  lemma PaddedKeeps(t: string)
    requires AllHex(t) && AllLower(t) && |t| <= 16
    ensures var p := Padded(t, 16);
            AllLower(p) && AllHex(p) && HexValue(p) == HexValue(t) && |p| == 16
  {
    PaddedIsZeros(t);
    ZerosAddNothing(16 - |t|, t);
    ZerosAreLower(16 - |t|, t);
  }

  lemma PaddedLower(s: string)
    requires AllHex(s) && |s| <= 16
    ensures var p := Padded(ToLower(s), 16);
            Canonical(p) && AllHex(p) && HexValue(p) == HexValue(s)
  {
    LowerReadsAlike(s);
    PaddedKeeps(ToLower(s));
  }

  /** Printing what a request was read as gives the same digits in lower case and padded. */
  lemma PrintAfterParse(s: string)
    requires QuoteFree(s) && |s| <= 16 && UnmarshalFingerprintHash(Text(s)).Ok?
    ensures Hex(UnmarshalFingerprintHash(Text(s)).value) == Padded(ToLower(s), 16)
  {
    QuotesGone(s);
    var h := UnmarshalFingerprintHash(Text(s)).value;
    HexIsCanonical(h);
    PaddedLower(s);
    SameValue(Hex(h), Padded(ToLower(s), 16));
  }

  /** Reading, printing and reading again changes nothing, whichever parser reads the print. */
  lemma PrintIsStable(s: string)
    requires QuoteFree(s) && |s| <= 16 && UnmarshalFingerprintHash(Text(s)).Ok?
    ensures var printed := Padded(ToLower(s), 16);
            UnmarshalFingerprintHash(Text(printed)) == UnmarshalFingerprintHash(Text(s)) == ReadJson(printed)
  {
    PrintAfterParse(s);
    RoundTrip(UnmarshalFingerprintHash(Text(s)).value);
  }

  /**
   The two parsers agree on every quote-free string of at most sixteen characters, and on longer ones exactly when these
   are a way of writing zero.
   */
  lemma ParsersAgreeIff(s: string)
    requires QuoteFree(s)
    ensures UnmarshalFingerprintHash(Text(s)) == ReadJson(s) <==> |s| <= 16 || (AllHex(s) && HexValue(s) == 0)
  {
    QuotesGone(s);
    if |s| > 16 && ReadJson(s) == Ok(0) {
      assert Unsigned(0) == 0;
    }
  }

  /** Stored JSON is read if it is hex of any length and fits, and then as the two's complement. */
  lemma JsonReadIff(s: string)
    requires QuoteFree(s)
    ensures ReadJson(s).Ok? <==> s != [] && AllHex(s) && HexValue(s) < 0x1_0000_0000_0000_0000
    ensures ReadJson(s).Ok? ==> var h := ReadJson(s).value as int;
                                HexValue(s) == h + if h < 0 then 0x1_0000_0000_0000_0000 else 0
  {
    QuotesGone(s);
  }

  /** A request is read as if it had no quotes, and as zero if it is longer than sixteen characters then. */
  lemma RequestIgnoresQuotes(s: string)
    ensures UnmarshalFingerprintHash(Text(s)) == UnmarshalFingerprintHash(Text(WithoutQuotes(s)))
    ensures |WithoutQuotes(s)| > 16 ==> UnmarshalFingerprintHash(Text(s)) == Ok(0)
    ensures |WithoutQuotes(s)| <= 16 ==> UnmarshalFingerprintHash(Text(s)) == ReadJson(WithoutQuotes(s))
  {
    DropsEveryQuote(s, []);
    QuotesGone(WithoutQuotes(s));
  }

  /** Sixteen characters always fit: a request's hash fails only for a character that is no hex digit, or for none at all. */
  lemma RequestFailsIff(s: string)
    requires QuoteFree(s)
    ensures UnmarshalFingerprintHash(Text(s)).Err? <==> s == [] || (|s| <= 16 && !AllHex(s))
  {
    QuotesGone(s);
    if AllHex(s) && |s| <= 16 {
      BelowPower(s);
      PowersGrow(|s|, 16);
      SixteenDigits();
    }
  }

  lemma {:induction false} PowersGrow(j: nat, k: nat)
    requires j <= k
    ensures Pow16(j) <= Pow16(k)
    decreases k
  {
    if j < k {
      PowersGrow(j, k - 1);
    }
  }
}
