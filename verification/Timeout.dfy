/**
  The deadline of a call on its way from client to server: `headersFromContext` (client.go) prints
  the time remaining, `contextFromHeaders` and `parseGrpcTimeout` (server.go) read it back.
  Durations are nanoseconds in 64 bits.
 */
module Timeouts {
  import opened Frames
  import opened MetadataCodec

  const TWO_TO_THE_63 := 0x8000_0000_0000_0000

  type Int64 = x: int | -TWO_TO_THE_63 <= x < TWO_TO_THE_63

  const NANOSECOND := 1
  const MICROSECOND := 1_000
  const MILLISECOND := 1_000_000
  const SECOND := 1_000_000_000
  const MINUTE := 60_000_000_000
  const HOUR := 3_600_000_000_000

  const TIMEOUT_KEY: GoString := "GRPC-Timeout"
  const LOWER_TIMEOUT_KEY: GoString := "grpc-timeout"

  predicate InRange(x: int) {
    -TWO_TO_THE_63 <= x < TWO_TO_THE_63
  }

  /** The value of a 64-bit product that overflows. */
  function Wrap64(x: int): (r: Int64)
    ensures InRange(x) <==> r == x
  {
    var m := x % TWO_TO_THE_64;
    if m >= TWO_TO_THE_63 then m - TWO_TO_THE_64 else m
  }

  /** Division that truncates toward zero. */
  function Quotient(a: int, b: int): int
    requires b > 0
  {
    if a >= 0 then a / b else -(-a / b)
  }

  // ----- decimal numbers

  predicate IsDigit(c: GoChar) {
    '0' <= c <= '9'
  }

  function Digit(d: nat): GoChar
    requires d < 10
  {
    '0' + d as char
  }

  /** The format `%d` of a number that is not negative. */
  function Print(n: nat): GoString {
    if n < 10 then [Digit(n)] else Print(n / 10) + [Digit(n % 10)]
  }

  function ParseDigits(s: GoString): Option<nat> {
    if |s| == 0 || !IsDigit(s[|s| - 1]) then None
    else
      var d := s[|s| - 1] as int - '0' as int;
      if |s| == 1 then Some(d)
      else
        var high := ParseDigits(s[..|s| - 1]);
        if high.None? then None else Some(10 * high.value + d)
  }

  /** `strconv.ParseInt(s, 10, 64)`: an optional sign, digits, and a value within 64 bits. */
  function ParseInt64(s: GoString): Option<Int64> {
    var signed := |s| > 0 && (s[0] == '-' || s[0] == '+');
    var n := ParseDigits(if signed then s[1..] else s);
    if n.None? then None
    else
      var v: int := if signed && s[0] == '-' then 0 - n.value else n.value;
      if InRange(v) then Some(v) else None
  }

  lemma {:induction false} ParsePrint(n: nat)
    ensures ParseDigits(Print(n)) == Some(n)
    ensures |Print(n)| > 0 && forall i :: 0 <= i < |Print(n)| ==> IsDigit(Print(n)[i])
  {
    if n >= 10 {
      ParsePrint(n / 10);
      assert Print(n)[..|Print(n)| - 1] == Print(n / 10);
    }
  }

  /** A number has at most `k` digits exactly when it is below the k-th power of ten. */
  lemma {:induction false} PrintLength(n: nat, k: nat)
    requires k > 0
    ensures |Print(n)| <= k <==> n < Pow10(k)
  {
    if n >= 10 {
      if k == 1 {
        ParsePrint(n / 10);
      } else {
        PrintLength(n / 10, k - 1);
      }
    } else {
      PowGrows(k);
    }
  }

  function Pow10(k: nat): nat {
    if k == 0 then 1 else 10 * Pow10(k - 1)
  }

  lemma {:induction false} PowGrows(k: nat)
    requires k > 0
    ensures Pow10(k) >= 10
  {
    if k > 1 {
      PowGrows(k - 1);
    }
  }

  // ----- one timeout

  /** The value that the client prints for the time remaining. */
  function PrintTimeout(remaining: Int64): GoString {
    var ms := Quotient(remaining, MILLISECOND);
    Print(if ms <= 0 then 1 else ms) + "m"
  }

  function Unit(suffix: GoChar): int {
    match suffix
    case 'H' => HOUR
    case 'M' => MINUTE
    case 'S' => SECOND
    case 'm' => MILLISECOND
    case 'u' => MICROSECOND
    case 'n' => NANOSECOND
    case _ => 0
  }

  /** `parseGrpcTimeout` */
  function ParseTimeout(s: GoString): Option<Int64> {
    if s == "" then None
    else
      var val, unit := ParseInt64(s[..|s| - 1]), Unit(s[|s| - 1]);
      if val.None? || unit == 0 then None else Some(Wrap64(val.value * unit))
  }

  /** The server's timeout is the client's remaining time, at most a millisecond short; at least one millisecond. */
  predicate Close(t: int, remaining: int) {
    if remaining >= MILLISECOND then t <= remaining < t + MILLISECOND else t == MILLISECOND
  }

  /** For every remaining time, with no overflow on the way. */
  lemma TimeoutBound(remaining: Int64)
    ensures ParseTimeout(PrintTimeout(remaining)).Some?
    ensures Close(ParseTimeout(PrintTimeout(remaining)).value, remaining)
  {
    var ms := Quotient(remaining, MILLISECOND);
    var n: nat := if ms <= 0 then 1 else ms;
    var s := PrintTimeout(remaining);
    ParsePrint(n);
    assert s[..|s| - 1] == Print(n);
    assert ParseInt64(Print(n)) == Some(n);
    assert InRange(n * MILLISECOND);
  }

  /**
    The gRPC over HTTP2 protocol document allows at most 8 digits ("Requests"). The client keeps to
    that exactly for remaining times below 10^8 milliseconds.
   */
  lemma PrintedWithinEightDigits(remaining: Int64)
    ensures |PrintTimeout(remaining)| <= 9 <==> remaining < Pow10(8) * MILLISECOND
  {
    var ms := Quotient(remaining, MILLISECOND);
    var n: nat := if ms <= 0 then 1 else ms;
    PrintLength(n, 8);
    assert |PrintTimeout(remaining)| == |Print(n)| + 1;
    assert Pow10(8) == 100_000_000 by {
      assert Pow10(4) == 10_000;
    }
  }

  /** A string of digits, and the number it stands for. */
  predicate AllDigits(s: GoString) {
    |s| > 0 && forall i :: 0 <= i < |s| ==> IsDigit(s[i])
  }

  lemma {:induction false} DigitsParse(s: GoString)
    requires AllDigits(s)
    ensures ParseDigits(s).Some? && ParseDigits(s).value < Pow10(|s|)
  {
    if |s| > 1 {
      DigitsParse(s[..|s| - 1]);
    } else {
      assert Pow10(1) == 10;
    }
  }

  lemma {:induction false} PowMonotone(a: nat, b: nat)
    requires a <= b
    ensures Pow10(a) <= Pow10(b)
    decreases b - a
  {
    if a < b {
      PowMonotone(a, b - 1);
    }
  }

  /** The six units of the protocol document, in nanoseconds. */
  predicate IsUnit(suffix: GoChar, nanoseconds: int) {
    || (suffix == 'H' && nanoseconds == 60 * 60 * 1_000_000_000)
    || (suffix == 'M' && nanoseconds == 60 * 1_000_000_000)
    || (suffix == 'S' && nanoseconds == 1_000_000_000)
    || (suffix == 'm' && nanoseconds == 1_000_000)
    || (suffix == 'u' && nanoseconds == 1_000)
    || (suffix == 'n' && nanoseconds == 1)
  }

  lemma UnitMeans(suffix: GoChar, nanoseconds: int)
    ensures IsUnit(suffix, nanoseconds) <==> Unit(suffix) == nanoseconds != 0
  {
  }

  /**
    Every well-formed timeout of the protocol document (1 to 8 digits and a unit) is accepted, and
    read as what it says, except exactly for more than 2562047 hours: that overflows.
   */
  lemma WellFormedTimeoutMeans(digits: GoString, suffix: GoChar, nanoseconds: int)
    requires AllDigits(digits) && |digits| <= 8 && IsUnit(suffix, nanoseconds)
    ensures ParseDigits(digits).Some? && ParseTimeout(digits + [suffix]).Some?
    ensures var n := ParseDigits(digits).value;
            ParseTimeout(digits + [suffix]).value == n * nanoseconds <==> !(suffix == 'H' && n > 2_562_047)
  {
    hide Unit, ParseInt64, ParseDigits, InRange, IsUnit;
    var s := digits + [suffix];
    DigitsParse(digits);
    PowMonotone(|digits|, 8);
    EightDigits();
    UnitMeans(suffix, nanoseconds);
    var n := ParseDigits(digits).value;
    assert s[..|s| - 1] == digits;
    ProductFits(n, suffix, nanoseconds);
    UnsignedParses(digits);
  }

  lemma EightDigits()
    ensures Pow10(8) == 100_000_000
  {
    assert Pow10(4) == 10_000;
  }

  lemma UnsignedParses(digits: GoString)
    requires AllDigits(digits) && ParseDigits(digits).Some? && InRange(ParseDigits(digits).value)
    ensures ParseInt64(digits) == Some(ParseDigits(digits).value)
  {
    hide ParseDigits, InRange;
  }

  lemma ProductFits(n: nat, suffix: GoChar, nanoseconds: int)
    requires n < 100_000_000 && IsUnit(suffix, nanoseconds)
    ensures InRange(n) && (InRange(n * nanoseconds) <==> !(suffix == 'H' && n > 2_562_047))
  {
  }

  /** The number that a digit string stands for, digit by digit. */
  lemma DigitsMean(digits: GoString, d: nat)
    requires AllDigits(digits) && d < 10
    ensures ParseDigits(digits).Some? && AllDigits(digits + [Digit(d)])
    ensures "0123456789"[d] == Digit(d)
    ensures ParseDigits([Digit(d)]) == Some(d)
    ensures ParseDigits(digits + [Digit(d)]) == Some(10 * ParseDigits(digits).value + d)
  {
    DigitsParse(digits);
    assert (digits + [Digit(d)])[..|digits|] == digits;
  }

  /** Nothing but digits is a number. */
  lemma {:induction false} OnlyDigitsParse(s: GoString)
    ensures ParseDigits(s).Some? <==> AllDigits(s)
  {
    if |s| > 1 {
      OnlyDigitsParse(s[..|s| - 1]);
      assert s == s[..|s| - 1] + [s[|s| - 1]];
    }
  }

  /** What `parseGrpcTimeout` accepts: a number of 64 bits with an optional sign, and one of the six units. */
  lemma ParseTimeoutAccepts(s: GoString)
    ensures ParseTimeout(s).Some? <==>
            && |s| > 0 && s[|s| - 1] in ['H', 'M', 'S', 'm', 'u', 'n']
            && ParseInt64(s[..|s| - 1]).Some?
  {
    hide ParseInt64;
  }

  /** The sign of a number, and its range. */
  lemma SignedMeans(digits: GoString)
    requires AllDigits(digits)
    ensures ParseDigits(digits).Some?
    ensures var n := ParseDigits(digits).value;
            && (ParseInt64(['-'] + digits).Some? <==> n <= 0x8000_0000_0000_0000)
            && (n <= 0x8000_0000_0000_0000 ==> ParseInt64(['-'] + digits).value == 0 - n)
            && ParseInt64(['+'] + digits) == ParseInt64(digits)
            && (ParseInt64(digits).Some? <==> n < 0x8000_0000_0000_0000)
            && (n < 0x8000_0000_0000_0000 ==> ParseInt64(digits).value == n)
  {
    hide ParseDigits;
    DigitsParse(digits);
    assert (['-'] + digits)[1..] == digits && (['+'] + digits)[1..] == digits;
  }

  // ----- the headers of a request

  function TimeoutEntry(remaining: Option<Int64>): seq<KeyValue> {
    if remaining.None? then [] else [KeyValue(TIMEOUT_KEY, PrintTimeout(remaining.value))]
  }

  function UserMetadata(md: Option<Metadata>): seq<Metadata> {
    if md.None? then [] else [md.value]
  }

  /** `h` is what the client sends for these metadata, with this time remaining, for some iteration order. */
  ghost predicate HeadersOf(h: seq<KeyValue>, md: Option<Metadata>, remaining: Option<Int64>) {
    exists kvs :: Encodes(kvs, UserMetadata(md)) && h == kvs + TimeoutEntry(remaining)
  }

  /** `headersFromContext` */
  method HeadersFromContext(md: Option<Metadata>, remaining: Option<Int64>) returns (h: seq<KeyValue>)
    ensures HeadersOf(h, md, remaining)
  {
    h := [];
    if md.Some? {
      h := ToKeyValue([md.value]);
    } else {
      assert IsOrder([], Join([])) && h == EncodeIn([], Join([]));
    }
    assert Encodes(h, UserMetadata(md));
    if remaining.Some? {
      var ms := Quotient(remaining.value, MILLISECOND);
      if ms <= 0 {
        ms := 1;
      }
      h := h + [KeyValue(TIMEOUT_KEY, Print(ms) + "m")];
    } else {
      assert h + TimeoutEntry(remaining) == h;
    }
  }

  predicate IsTimeout(kv: KeyValue) {
    Lower(kv.key) == LOWER_TIMEOUT_KEY && ParseTimeout(kv.value).Some?
  }

  /** The first timeout of the list that parses. */
  function FirstTimeout(headers: seq<KeyValue>): Option<Int64> {
    if |headers| == 0 then None
    else if IsTimeout(headers[0]) then ParseTimeout(headers[0].value)
    else FirstTimeout(headers[1..])
  }

  /** The incoming context of a handler: metadata and timeout. */
  datatype Incoming = Incoming(metadata: Metadata, timeout: Option<Int64>)

  /** `contextFromHeaders`: `None` when the metadata does not decode. */
  function IncomingContext(headers: seq<KeyValue>): Option<Incoming> {
    var md := Decode(headers);
    if md.None? then None else Some(Incoming(md.value, FirstTimeout(headers)))
  }

  /** The loop of `contextFromHeaders`. */
  method ContextFromHeaders(headers: seq<KeyValue>) returns (ctx: Option<Incoming>)
    ensures ctx == IncomingContext(headers)
  {
    var md := ToMetadata(headers);
    if md.None? {
      return None;
    }
    for i := 0 to |headers|
      invariant FirstTimeout(headers) == FirstTimeout(headers[i..])
    {
      if Lower(headers[i].key) == LOWER_TIMEOUT_KEY {
        var timeout := ParseTimeout(headers[i].value);
        if timeout.Some? {
          return Some(Incoming(md.value, timeout));
        }
      }
      assert headers[i..][1..] == headers[i + 1..];
    }
    ctx := Some(Incoming(md.value, None));
  }

  lemma {:induction false} FirstTimeoutConcat(a: seq<KeyValue>, b: seq<KeyValue>)
    ensures FirstTimeout(a + b) == if FirstTimeout(a).Some? then FirstTimeout(a) else FirstTimeout(b)
  {
    if |a| == 0 {
      assert a + b == b;
    } else {
      assert (a + b)[1..] == a[1..] + b;
      FirstTimeoutConcat(a[1..], b);
    }
  }

  lemma {:induction false} NoTimeouts(kvs: seq<KeyValue>)
    requires forall i :: 0 <= i < |kvs| ==> !IsTimeout(kvs[i])
    ensures FirstTimeout(kvs) == None
  {
    if |kvs| > 0 {
      NoTimeouts(kvs[1..]);
    }
  }

  /** The keys of an encoding are keys of the metadata. */
  lemma {:induction false} EncodedKeys(order: seq<GoString>, md: Metadata)
    requires forall i :: 0 <= i < |order| ==> order[i] in md
    ensures forall i :: 0 <= i < |EncodeIn(order, md)| ==> EncodeIn(order, md)[i].key in md
  {
    if |order| > 0 {
      EncodedKeys(order[..|order| - 1], md);
      EntryKeys(order[|order| - 1], md[order[|order| - 1]]);
    }
  }

  lemma {:induction false} EntryKeys(key: GoString, values: seq<GoString>)
    ensures forall i :: 0 <= i < |EncodeEntry(key, values)| ==> EncodeEntry(key, values)[i].key == key
  {
    if |values| > 0 {
      EntryKeys(key, values[..|values| - 1]);
    }
  }

  /** The user set no timeout in the metadata. */
  predicate NoUserTimeout(md: Option<Metadata>) {
    md.Some? ==> forall k :: k in md.value ==> Lower(k) != LOWER_TIMEOUT_KEY
  }

  lemma JoinOne(md: Option<Metadata>)
    ensures Join(UserMetadata(md)) == if md.None? then map[] else md.value
  {
    if md.Some? {
      assert [md.value][..0] == [];
      assert Join([]) == map[];
      assert forall k :: k in md.value ==> Values(map[], k) + md.value[k] == md.value[k];
      assert [md.value][0] == md.value;
    }
  }

  /** A pair whose key is not binary decodes as it is. */
  lemma PlainEntryDecodes(kvs: seq<KeyValue>, key: GoString, value: GoString)
    requires Decode(kvs).Some? && !IsBinary(key)
    ensures Decode(kvs + [KeyValue(key, value)]) == Some(Extend(Decode(kvs).value, key, [value]))
  {
    hide Decode, Extend, IsBinary;
    DecodeAppend(kvs, KeyValue(key, value));
  }

  lemma {:induction false} LowerPointwise(s: GoString, t: GoString)
    requires |s| == |t| && forall i :: 0 <= i < |s| ==> LowerChar(s[i]) == t[i]
    ensures AsciiLower(s) == t
  {
    if |s| > 0 {
      LowerPointwise(s[1..], t[1..]);
    }
  }

  lemma TimeoutKeyLower()
    ensures TIMEOUT_KEY == "GRPC-Timeout" && LOWER_TIMEOUT_KEY == "grpc-timeout"
    ensures Lower(TIMEOUT_KEY) == LOWER_TIMEOUT_KEY && Lower(LOWER_TIMEOUT_KEY) == LOWER_TIMEOUT_KEY
    ensures !IsBinary(TIMEOUT_KEY)
  {
    hide AsciiLower;
    LowerPointwise(TIMEOUT_KEY, LOWER_TIMEOUT_KEY);
    LowerPointwise(LOWER_TIMEOUT_KEY, LOWER_TIMEOUT_KEY);
    assert LOWER_TIMEOUT_KEY[11] == 't';
  }

  /**
    The deadline crosses the wire, for every iteration order and without a timeout of the user's own
    in the metadata: the server accepts the headers, and its timeout is present exactly when the
    client's is, and at most a millisecond short of it.
   */
  lemma DeadlineArrives(h: seq<KeyValue>, md: Option<Metadata>, remaining: Option<Int64>)
    requires HeadersOf(h, md, remaining) && NoUserTimeout(md)
    ensures IncomingContext(h).Some?
    ensures var timeout := IncomingContext(h).value.timeout;
            && (timeout.None? <==> remaining.None?)
            && (remaining.Some? ==> Close(timeout.value, remaining.value))
  {
    hide Decode, Encodes, PrintTimeout, ParseTimeout, Close, Lower, IsBinary;
    var kvs :| Encodes(kvs, UserMetadata(md)) && h == kvs + TimeoutEntry(remaining);
    EncodedAlwaysDecodes(kvs, UserMetadata(md));
    UserSetsNone(kvs, md);
    FirstTimeoutConcat(kvs, TimeoutEntry(remaining));
    if remaining.Some? {
      TimeoutKeyLower();
      PlainEntryDecodes(kvs, TIMEOUT_KEY, PrintTimeout(remaining.value));
      TimeoutBound(remaining.value);
      assert FirstTimeout(TimeoutEntry(remaining)) == ParseTimeout(PrintTimeout(remaining.value));
    } else {
      assert h == kvs;
    }
  }

  lemma UserSetsNone(kvs: seq<KeyValue>, md: Option<Metadata>)
    requires Encodes(kvs, UserMetadata(md)) && NoUserTimeout(md)
    ensures FirstTimeout(kvs) == None
  {
    hide ParseTimeout;
    var order :| IsOrder(order, Join(UserMetadata(md))) && kvs == EncodeIn(order, Join(UserMetadata(md)));
    EncodedKeys(order, Join(UserMetadata(md)));
    JoinOne(md);
    forall i | 0 <= i < |kvs|
      ensures !IsTimeout(kvs[i])
    {
      assert kvs[i].key in md.value;
    }
    NoTimeouts(kvs);
  }

  /** A header that sets a timeout: its lower-cased key is "grpc-timeout", and its value parses. */
  predicate SetsTimeout(kv: KeyValue, timeout: Int64) {
    Lower(kv.key) == "grpc-timeout" && ParseTimeout(kv.value) == Some(timeout)
  }

  /** The timeout of a request is that of the first header that sets one, and there is none exactly when none does. */
  lemma {:induction false} FirstTimeoutMeans(headers: seq<KeyValue>)
    ensures FirstTimeout(headers).None? <==> forall i, t :: 0 <= i < |headers| ==> !SetsTimeout(headers[i], t)
    ensures FirstTimeout(headers).Some? ==>
              exists i :: 0 <= i < |headers| && SetsTimeout(headers[i], FirstTimeout(headers).value)
                          && forall j, t :: 0 <= j < i ==> !SetsTimeout(headers[j], t)
  {
    hide ParseTimeout, Lower;
    assert LOWER_TIMEOUT_KEY == "grpc-timeout";
    if |headers| > 0 {
      var rest := headers[1..];
      FirstTimeoutMeans(rest);
      if IsTimeout(headers[0]) {
        assert SetsTimeout(headers[0], ParseTimeout(headers[0].value).value);
      } else {
        assert forall i :: 0 <= i < |rest| ==> rest[i] == headers[i + 1];
        if FirstTimeout(rest).Some? {
          var i :| 0 <= i < |rest| && SetsTimeout(rest[i], FirstTimeout(rest).value) && forall j, t :: 0 <= j < i ==> !SetsTimeout(rest[j], t);
          assert SetsTimeout(headers[i + 1], FirstTimeout(headers).value);
          assert forall j, t :: 0 <= j < i + 1 ==> !SetsTimeout(headers[j], t) by {
            assert forall j :: 1 <= j < i + 1 ==> headers[j] == rest[j - 1];
          }
        } else {
          assert forall i :: 1 <= i < |headers| ==> headers[i] == rest[i - 1];
        }
      }
    }
  }

  /** A user timeout that parses decides, whatever the deadline of the context is. */
  lemma UserTimeoutWins(kvs: seq<KeyValue>, md: Option<Metadata>, remaining: Option<Int64>)
    requires Encodes(kvs, UserMetadata(md)) && FirstTimeout(kvs).Some?
    ensures HeadersOf(kvs + TimeoutEntry(remaining), md, remaining)
    ensures FirstTimeout(kvs + TimeoutEntry(remaining)) == FirstTimeout(kvs)
  {
    FirstTimeoutConcat(kvs, TimeoutEntry(remaining));
  }

  /** The handler sees exactly the caller's metadata, and the printed timeout under its lower-case key. */
  lemma MetadataArrives(h: seq<KeyValue>, md: Metadata, remaining: Option<Int64>)
    requires HeadersOf(h, Some(md), remaining) && NoUserTimeout(Some(md)) && Canonical(md)
    ensures IncomingContext(h).Some?
    ensures IncomingContext(h).value.metadata ==
            if remaining.None? then md else md[LOWER_TIMEOUT_KEY := [PrintTimeout(remaining.value)]]
  {
    hide Decode, Encodes, PrintTimeout, ParseTimeout, Lower, IsBinary;
    var kvs :| Encodes(kvs, [md]) && h == kvs + TimeoutEntry(remaining);
    RoundTrip(kvs, [md]);
    JoinOne(Some(md));
    TimeoutKeyLower();
    if remaining.Some? {
      PlainEntryDecodes(kvs, TIMEOUT_KEY, PrintTimeout(remaining.value));
      NewKeyExtends(md, PrintTimeout(remaining.value));
    } else {
      assert h == kvs;
    }
  }

  lemma NewKeyExtends(md: Metadata, value: GoString)
    requires NoUserTimeout(Some(md))
    ensures Extend(md, TIMEOUT_KEY, [value]) == md[LOWER_TIMEOUT_KEY := [value]]
  {
    hide Lower;
    TimeoutKeyLower();
    assert LOWER_TIMEOUT_KEY !in md;
    assert Values(md, LOWER_TIMEOUT_KEY) + [value] == [value];
  }
}
