/**
  URL-safe base64 with padding (section 5 of RFC 4648), as the Go standard library encodes and
  decodes it: the decoder skips carriage returns and line feeds and does not check the unused
  low bits of the last symbol.
 */
module Base64 {
  import opened Frames

  function Symbol(v: Sextet): (c: GoChar)
    ensures SymbolValue(c) == Some(v)
    ensures c != '=' && c != '\r' && c != '\n'
  {
    if v < 26 then ('A' as int + v) as char
    else if v < 52 then ('a' as int + (v - 26)) as char
    else if v < 62 then ('0' as int + (v - 52)) as char
    else if v == 62 then '-' else '_'
  }

  function SymbolValue(c: GoChar): Option<Sextet> {
    if 'A' <= c <= 'Z' then Some(c as int - 'A' as int)
    else if 'a' <= c <= 'z' then Some(26 + (c as int - 'a' as int))
    else if '0' <= c <= '9' then Some(52 + (c as int - '0' as int))
    else if c == '-' then Some(62)
    else if c == '_' then Some(63)
    else None
  }

  function Byte(v: Octet): GoChar {
    v as char
  }

  type Sextet = v: nat | v < 64

  type Octet = v: nat | v < 256

  // The four sextets of three octets, and back.
  function Sextet1(a: Octet): Sextet { a / 4 }
  function Sextet2(a: Octet, b: Octet): Sextet { a % 4 * 16 + b / 16 }
  function Sextet3(b: Octet, c: Octet): Sextet { b % 16 * 4 + c / 64 }
  function Sextet4(c: Octet): Sextet { c % 64 }

  function Octet1(x: Sextet, y: Sextet): Octet { x * 4 + y / 16 }
  function Octet2(y: Sextet, z: Sextet): Octet { y % 16 * 16 + z / 4 }
  function Octet3(z: Sextet, w: Sextet): Octet { z % 4 * 64 + w }

  function Encode(s: GoString): GoString {
    if |s| == 0 then []
    else
      var a := s[0] as int;
      if |s| == 1 then [Symbol(Sextet1(a)), Symbol(Sextet2(a, 0)), '=', '=']
      else
        var b := s[1] as int;
        if |s| == 2 then [Symbol(Sextet1(a)), Symbol(Sextet2(a, b)), Symbol(Sextet3(b, 0)), '=']
        else
          var c := s[2] as int;
          [Symbol(Sextet1(a)), Symbol(Sextet2(a, b)), Symbol(Sextet3(b, c)), Symbol(Sextet4(c))] + Encode(s[3..])
  }

  /** `s` without the line breaks that the decoder skips. */
  function SkipBreaks(s: GoString): GoString {
    if |s| == 0 then []
    else if s[0] == '\r' || s[0] == '\n' then SkipBreaks(s[1..])
    else [s[0]] + SkipBreaks(s[1..])
  }

  function DecodeQuanta(s: GoString): Option<GoString> {
    if |s| == 0 then Some([])
    else if |s| < 4 then None
    else
      var x, y := SymbolValue(s[0]), SymbolValue(s[1]);
      if x.None? || y.None? then None
      else
        var first := Byte(Octet1(x.value, y.value));
        if s[2] == '=' && s[3] == '=' then
          if |s| == 4 then Some([first]) else None
        else
          var z := SymbolValue(s[2]);
          if z.None? then None
          else
            var second := Byte(Octet2(y.value, z.value));
            if s[3] == '=' then
              if |s| == 4 then Some([first, second]) else None
            else
              var w := SymbolValue(s[3]);
              if w.None? then None
              else
                var rest := DecodeQuanta(s[4..]);
                if rest.None? then None
                else Some([first, second, Byte(Octet3(z.value, w.value))] + rest.value)
  }

  function Decode(s: GoString): Option<GoString> {
    DecodeQuanta(SkipBreaks(s))
  }

  // ----- what the text means

  const UPPER: string := "ABCDEFGHIJKLMNOPQRSTUVWXYZ"
  const LOWER: string := "abcdefghijklmnopqrstuvwxyz"
  const DIGITS: string := "0123456789"

  /** The URL-safe alphabet: the symbol of each value. */
  const ALPHABET: string := UPPER + LOWER + DIGITS + "-_"

  lemma SymbolUpper(v: Sextet)
    ensures v < 26 ==> Symbol(v) == UPPER[v]
  {
  }

  lemma SymbolLower(v: Sextet)
    ensures 26 <= v < 52 ==> Symbol(v) == LOWER[v - 26]
  {
  }

  lemma SymbolIs(v: Sextet)
    ensures |ALPHABET| == 64 && Symbol(v) == ALPHABET[v]
  {
    SymbolUpper(v);
    SymbolLower(v);
  }

  /** The value of a symbol is its place in the alphabet, and nothing else has one. */
  lemma SymbolValueMeans(c: GoChar, v: Sextet)
    ensures |ALPHABET| == 64
    ensures SymbolValue(c) == Some(v) <==> c == ALPHABET[v]
  {
    hide ALPHABET;
    SymbolIs(v);
    ValueOfSymbol(c, v);
  }

  lemma ValueOfSymbol(c: GoChar, v: Sextet)
    ensures SymbolValue(c) == Some(v) <==> c == Symbol(v)
  {
  }

  /** The octet at `i`, zero behind the end. */
  function OctetAt(s: GoString, i: nat): Octet {
    if i < |s| then s[i] as int else 0
  }

  /** The 24 bits of the three octets from `i` on. */
  function Word(s: GoString, i: nat): nat {
    65536 * OctetAt(s, i) + 256 * OctetAt(s, i + 1) + OctetAt(s, i + 2)
  }

  /** The `k`-th six bits of a word, the highest first. */
  function SixBits(word: nat, k: nat): nat {
    match k
    case 0 => word / 262144 % 64
    case 1 => word / 4096 % 64
    case 2 => word / 64 % 64
    case _ => word % 64
  }

  lemma WordBits(a: Octet, b: Octet, c: Octet)
    ensures var w := 65536 * a + 256 * b + c;
            SixBits(w, 0) == Sextet1(a) && SixBits(w, 1) == Sextet2(a, b) && SixBits(w, 2) == Sextet3(b, c) && SixBits(w, 3) == Sextet4(c)
  {
    var w := 65536 * a + 256 * b + c;
    assert w / 262144 == a / 4;
    assert w / 4096 == 16 * a + b / 16;
    assert w / 64 == 1024 * a + 4 * b + c / 64;
    assert (16 * a + b / 16) % 64 == a % 4 * 16 + b / 16;
    assert (1024 * a + 4 * b + c / 64) % 64 == b % 16 * 4 + c / 64;
  }

  /**
    What the text of an encoding is (sections 4 and 5 of RFC 4648): four characters for every three
    octets begun; of these one more than there are octets are the symbols of the next six bits, and
    the rest is padding.
   */
  lemma {:induction false} EncodeMeans(s: GoString, g: nat, k: nat)
    requires 3 * g < |s| && k < 4
    ensures |Encode(s)| == 4 * ((|s| + 2) / 3)
    ensures Encode(s)[4 * g + k] == if 3 * g + k <= |s| then ALPHABET[SixBits(Word(s, 3 * g), k)] else '='
  {
    hide Symbol, SymbolValue, SixBits, Sextet1, Sextet2, Sextet3, Sextet4, ALPHABET;
    EncodeLength(s);
    if g == 0 {
      FirstQuantum(s, k);
    } else {
      EncodeMeans(s[3..], g - 1, k);
      assert Encode(s)[4 * g + k] == Encode(s[3..])[4 * (g - 1) + k];
      assert forall i :: 0 <= i ==> OctetAt(s[3..], i) == OctetAt(s, i + 3);
    }
  }

  lemma EncodeStep(s: GoString)
    requires |s| >= 3
    ensures |Encode(s)| == 4 + |Encode(s[3..])|
  {
    hide Symbol, Sextet1, Sextet2, Sextet3, Sextet4;
  }

  lemma ShortLength(s: GoString)
    requires |s| < 3
    ensures |Encode(s)| == if |s| == 0 then 0 else 4
  {
    hide Symbol, Sextet1, Sextet2, Sextet3, Sextet4;
  }

  lemma {:induction false} EncodeLength(s: GoString)
    ensures |Encode(s)| == 4 * ((|s| + 2) / 3)
  {
    hide Encode;
    if |s| >= 3 {
      EncodeStep(s);
      EncodeLength(s[3..]);
    } else {
      ShortLength(s);
    }
  }

  lemma FirstQuantum(s: GoString, k: nat)
    requires |s| > 0 && k < 4
    ensures |Encode(s)| >= 4 && |ALPHABET| == 64
    ensures Encode(s)[k] == if k <= |s| then ALPHABET[SixBits(Word(s, 0), k)] else '='
  {
    hide Symbol, SymbolValue, SixBits, Sextet1, Sextet2, Sextet3, Sextet4, ALPHABET;
    var a, b, c := OctetAt(s, 0), OctetAt(s, 1), OctetAt(s, 2);
    WordBits(a, b, c);
    SymbolIs(Sextet1(a));
    SymbolIs(Sextet2(a, b));
    SymbolIs(Sextet3(b, c));
    SymbolIs(Sextet4(c));
  }

  lemma {:induction false} EncodeHasNoBreaks(s: GoString)
    ensures SkipBreaks(Encode(s)) == Encode(s)
  {
    if |s| >= 3 {
      EncodeHasNoBreaks(s[3..]);
      var q := Encode(s)[..4];
      assert Encode(s) == q + Encode(s[3..]);
      SkipBreaksStep(q, Encode(s[3..]));
    } else if |s| > 0 {
      SkipBreaksStep(Encode(s), []);
      assert Encode(s) + [] == Encode(s);
    }
  }

  lemma SkipBreaksHead(c: GoChar, rest: GoString)
    requires c != '\r' && c != '\n'
    ensures SkipBreaks([c] + rest) == [c] + SkipBreaks(rest)
  {
    assert ([c] + rest)[1..] == rest;
  }

  lemma {:induction false} SkipBreaksStep(q: GoString, rest: GoString)
    requires forall i :: 0 <= i < |q| ==> q[i] != '\r' && q[i] != '\n'
    ensures SkipBreaks(q + rest) == q + SkipBreaks(rest)
  {
    hide SkipBreaks;
    if |q| == 0 {
      assert q + rest == rest;
    } else {
      SkipBreaksStep(q[1..], rest);
      SkipBreaksHead(q[0], q[1..] + rest);
      assert q + rest == [q[0]] + (q[1..] + rest) && q == [q[0]] + q[1..];
    }
  }

  /** The bits of three octets, split into four sextets and joined again. */
  lemma SplitJoin(a: Octet, b: Octet, c: Octet)
    ensures Octet1(Sextet1(a), Sextet2(a, b)) == a
    ensures Octet2(Sextet2(a, b), Sextet3(b, c)) == b
    ensures Octet3(Sextet3(b, c), Sextet4(c)) == c
  {
    assert (a % 4 * 16 + b / 16) / 16 == a % 4;
    assert (a % 4 * 16 + b / 16) % 16 == b / 16;
    assert (b % 16 * 4 + c / 64) / 4 == b % 16;
    assert (b % 16 * 4 + c / 64) % 4 == c / 64;
  }

  /** Four symbols in front are decoded to the three bytes they stand for. */
  lemma DecodeGroup(x: Sextet, y: Sextet, z: Sextet, w: Sextet, rest: GoString)
    requires DecodeQuanta(rest).Some?
    ensures DecodeQuanta([Symbol(x), Symbol(y), Symbol(z), Symbol(w)] + rest) ==
            Some([Byte(Octet1(x, y)), Byte(Octet2(y, z)), Byte(Octet3(z, w))] + DecodeQuanta(rest).value)
  {
    hide Octet1, Octet2, Octet3;
    assert ([Symbol(x), Symbol(y), Symbol(z), Symbol(w)] + rest)[4..] == rest;
  }

  lemma DecodeTail1(x: Sextet, y: Sextet)
    ensures DecodeQuanta([Symbol(x), Symbol(y), '=', '=']) == Some([Byte(Octet1(x, y))])
  {
    hide Octet1;
  }

  lemma DecodeTail2(x: Sextet, y: Sextet, z: Sextet)
    ensures DecodeQuanta([Symbol(x), Symbol(y), Symbol(z), '=']) == Some([Byte(Octet1(x, y)), Byte(Octet2(y, z))])
  {
    hide Octet1, Octet2;
  }

  lemma {:induction false} QuantaRoundTrip(s: GoString)
    ensures DecodeQuanta(Encode(s)) == Some(s)
  {
    hide DecodeQuanta, SymbolValue, Symbol, Sextet1, Sextet2, Sextet3, Sextet4, Octet1, Octet2, Octet3;
    if |s| == 0 {
      DecodeNothing();
    } else if |s| == 1 {
      SplitJoin(s[0] as int, 0, 0);
      DecodeTail1(Sextet1(s[0] as int), Sextet2(s[0] as int, 0));
      assert s == [s[0]];
    } else if |s| == 2 {
      var a, b := s[0] as int, s[1] as int;
      SplitJoin(a, b, 0);
      DecodeTail2(Sextet1(a), Sextet2(a, b), Sextet3(b, 0));
      assert s == [s[0], s[1]];
    } else {
      var a, b, c := s[0] as int, s[1] as int, s[2] as int;
      QuantaRoundTrip(s[3..]);
      SplitJoin(a, b, c);
      DecodeGroup(Sextet1(a), Sextet2(a, b), Sextet3(b, c), Sextet4(c), Encode(s[3..]));
      assert s == [s[0], s[1], s[2]] + s[3..];
    }
  }

  lemma DecodeNothing()
    ensures DecodeQuanta([]) == Some([])
  {
  }

  /** Decoding inverts encoding on every byte string. */
  lemma RoundTrip(s: GoString)
    ensures Decode(Encode(s)) == Some(s)
  {
    EncodeHasNoBreaks(s);
    QuantaRoundTrip(s);
  }

  // ----- what decodes, and to what

  /** The decoder skips exactly carriage returns and line feeds. */
  lemma {:induction false} SkipBreaksMeans(a: GoString, c: GoChar)
    ensures SkipBreaks(a + [c]) == SkipBreaks(a) + (if c == '\r' || c == '\n' then [] else [c])
  {
    if |a| > 0 {
      assert (a + [c])[1..] == a[1..] + [c];
      SkipBreaksMeans(a[1..], c);
    } else {
      assert a + [c] == [c] && [c][1..] == [];
    }
  }

  /** How many padding characters stand at the end. */
  function Padding(q: GoString): nat {
    if |q| >= 2 && q[|q| - 2] == '=' && q[|q| - 1] == '=' then 2
    else if |q| >= 1 && q[|q| - 1] == '=' then 1
    else 0
  }

  /** Whole quanta of symbols, with at most two padding characters at the very end. */
  predicate WellSpelt(q: GoString) {
    |q| % 4 == 0 && forall i :: 0 <= i < |q| - Padding(q) ==> SymbolValue(q[i]).Some?
  }

  lemma PaddingIsNoSymbol()
    ensures SymbolValue('=').None?
  {
  }

  lemma WellSpeltStep(q: GoString)
    requires |q| >= 8
    ensures WellSpelt(q) <==>
            && SymbolValue(q[0]).Some? && SymbolValue(q[1]).Some? && SymbolValue(q[2]).Some? && SymbolValue(q[3]).Some?
            && WellSpelt(q[4..])
    ensures Padding(q) == Padding(q[4..])
  {
    hide SymbolValue;
    assert forall i :: 0 <= i < |q| - 4 ==> q[4..][i] == q[i + 4];
    if WellSpelt(q[4..]) && SymbolValue(q[0]).Some? && SymbolValue(q[1]).Some? && SymbolValue(q[2]).Some? && SymbolValue(q[3]).Some? {
      forall i | 0 <= i < |q| - Padding(q)
        ensures SymbolValue(q[i]).Some?
      {
        if i >= 4 {
          assert q[i] == q[4..][i - 4];
        }
      }
    }
    if WellSpelt(q) {
      assert forall i :: 0 <= i < |q[4..]| - Padding(q[4..]) ==> SymbolValue(q[4..][i]).Some?;
    }
  }

  lemma {:induction false} QuantaAccepts(q: GoString)
    ensures DecodeQuanta(q).Some? <==> WellSpelt(q)
  {
    hide SymbolValue, WellSpelt, Octet1, Octet2, Octet3;
    PaddingIsNoSymbol();
    if |q| >= 8 {
      WellSpeltStep(q);
      QuantaAccepts(q[4..]);
    } else {
      LastQuantumAccepts(q);
    }
  }

  lemma LastQuantumAccepts(q: GoString)
    requires |q| < 8
    ensures DecodeQuanta(q).Some? <==> WellSpelt(q)
  {
    hide SymbolValue, Octet1, Octet2, Octet3;
    PaddingIsNoSymbol();
    if |q| == 4 {
      assert q[4..] == [];
    } else if |q| > 4 {
      assert |q[4..]| < 4 && DecodeQuanta(q[4..]).None?;
    }
  }

  /** The decoder accepts a text exactly when it is well spelt, but for line breaks. */
  lemma DecodeAccepts(s: GoString)
    ensures Decode(s).Some? <==> WellSpelt(SkipBreaks(s))
  {
    QuantaAccepts(SkipBreaks(s));
  }

  /** The value of the character at `i`, zero for padding. */
  function ValueAt(q: GoString, i: nat): Sextet
    requires i < |q|
  {
    if SymbolValue(q[i]).Some? then SymbolValue(q[i]).value else 0
  }

  /** The 24 bits of the four characters from `i` on. */
  function TextWord(q: GoString, i: nat): nat
    requires i + 3 < |q|
  {
    262144 * ValueAt(q, i) + 4096 * ValueAt(q, i + 1) + 64 * ValueAt(q, i + 2) + ValueAt(q, i + 3)
  }

  /** The `k`-th eight bits of a word, the highest first. */
  function EightBits(word: nat, k: nat): nat {
    match k
    case 0 => word / 65536 % 256
    case 1 => word / 256 % 256
    case _ => word % 256
  }

  lemma DivideBy256(q: nat, r: Octet)
    ensures (256 * q + r) / 256 == q && (256 * q + r) % 256 == r
  {
  }

  /** A word as three octets. */
  lemma WordOctets(a: Octet, b: Octet, c: Octet)
    ensures var word := 65536 * a + 256 * b + c;
            EightBits(word, 0) == a && EightBits(word, 1) == b && EightBits(word, 2) == c
  {
    var word := 65536 * a + 256 * b + c;
    assert word == 256 * (256 * a + b) + c;
    DivideBy256(256 * a + b, c);
    DivideBy256(a, b);
    assert word / 65536 == a;
  }

  /** The same word as four sextets. */
  lemma SameWord(x: Sextet, y: Sextet, z: Sextet, w: Sextet)
    ensures 262144 * x + 4096 * y + 64 * z + w == 65536 * Octet1(x, y) + 256 * Octet2(y, z) + Octet3(z, w)
  {
    var yh, yl, zh, zl := y / 16, y % 16, z / 4, z % 4;
    assert y == 16 * yh + yl && z == 4 * zh + zl;
  }

  lemma TextWordBits(x: Sextet, y: Sextet, z: Sextet, w: Sextet)
    ensures var word := 262144 * x + 4096 * y + 64 * z + w;
            EightBits(word, 0) == Octet1(x, y) && EightBits(word, 1) == Octet2(y, z) && EightBits(word, 2) == Octet3(z, w)
  {
    hide EightBits, Octet1, Octet2, Octet3;
    SameWord(x, y, z, w);
    WordOctets(Octet1(x, y), Octet2(y, z), Octet3(z, w));
  }

  /** What an accepted text means: three octets for every four characters, less one for each padding character. */
  ghost predicate Means(q: GoString, s: GoString) {
    && 4 * (|s| + Padding(q)) == 3 * |q|
    && (forall g: nat, k: nat :: k < 3 && 3 * g + k < |s| ==> OctetMeans(q, s, g, k))
  }

  /** The `k`-th octet of the group `g` is spelt by the characters of the group. */
  predicate OctetMeans(q: GoString, s: GoString, g: nat, k: nat) {
    k < 3 && 3 * g + k < |s| && 4 * g + 3 < |q| && s[3 * g + k] as int == EightBits(TextWord(q, 4 * g), k)
  }

  lemma {:induction false} QuantaMean(q: GoString)
    requires DecodeQuanta(q).Some?
    ensures Means(q, DecodeQuanta(q).value)
  {
    hide DecodeQuanta, Padding, OctetMeans;
    if |q| >= 8 {
      QuantaStepMeans(q);
      QuantaMean(q[4..]);
      WellSpeltStep(q);
      var s := DecodeQuanta(q).value;
      forall g: nat, k: nat | k < 3 && 3 * g + k < |s|
        ensures OctetMeans(q, s, g, k)
      {
        if g > 0 {
          LaterOctet(q, s, g, k);
        }
      }
    } else {
      LastQuantumMeans(q);
    }
  }

  /** An octet behind the first three is spelt as in the rest. */
  lemma LaterOctet(q: GoString, s: GoString, g: nat, k: nat)
    requires |q| >= 8 && |s| >= 3 && g > 0 && OctetMeans(q[4..], s[3..], g - 1, k)
    ensures OctetMeans(q, s, g, k)
  {
    hide EightBits;
    ShiftedWord(q, 4 * (g - 1));
  }

  lemma ShiftedWord(q: GoString, j: nat)
    requires j + 7 < |q|
    ensures TextWord(q[4..], j) == TextWord(q, j + 4)
  {
    hide SymbolValue;
  }

  /** The first of several quanta. */
  lemma QuantaStep(q: GoString)
    requires |q| >= 8 && DecodeQuanta(q).Some?
    ensures DecodeQuanta(q[4..]).Some?
    ensures DecodeQuanta(q).value ==
            [Byte(Octet1(ValueAt(q, 0), ValueAt(q, 1))), Byte(Octet2(ValueAt(q, 1), ValueAt(q, 2))),
             Byte(Octet3(ValueAt(q, 2), ValueAt(q, 3)))] + DecodeQuanta(q[4..]).value
  {
    hide SymbolValue, Octet1, Octet2, Octet3;
    PaddingIsNoSymbol();
  }

  lemma QuantaStepMeans(q: GoString)
    requires |q| >= 8 && DecodeQuanta(q).Some?
    ensures DecodeQuanta(q[4..]).Some?
    ensures var s := DecodeQuanta(q).value;
            && |s| >= 3 && s[3..] == DecodeQuanta(q[4..]).value
            && OctetMeans(q, s, 0, 0) && OctetMeans(q, s, 0, 1) && OctetMeans(q, s, 0, 2)
  {
    hide DecodeQuanta, ValueAt, Octet1, Octet2, Octet3, OctetMeans;
    QuantaStep(q);
    FirstOctets(q, DecodeQuanta(q).value);
  }

  lemma FirstOctets(q: GoString, s: GoString)
    requires |q| >= 4 && |s| >= 3
    requires s[0] == Byte(Octet1(ValueAt(q, 0), ValueAt(q, 1))) && s[1] == Byte(Octet2(ValueAt(q, 1), ValueAt(q, 2)))
    requires s[2] == Byte(Octet3(ValueAt(q, 2), ValueAt(q, 3)))
    ensures OctetMeans(q, s, 0, 0) && OctetMeans(q, s, 0, 1) && OctetMeans(q, s, 0, 2)
  {
    hide ValueAt, Octet1, Octet2, Octet3, EightBits;
    TextWordBits(ValueAt(q, 0), ValueAt(q, 1), ValueAt(q, 2), ValueAt(q, 3));
  }

  lemma LastQuantumMeans(q: GoString)
    requires |q| < 8 && DecodeQuanta(q).Some?
    ensures Means(q, DecodeQuanta(q).value)
  {
    hide SymbolValue, Octet1, Octet2, Octet3, EightBits;
    PaddingIsNoSymbol();
    NotWhole(q);
    if |q| == 4 {
      assert q[4..] == [];
      TextWordBits(ValueAt(q, 0), ValueAt(q, 1), ValueAt(q, 2), ValueAt(q, 3));
    }
  }

  lemma NotWhole(q: GoString)
    requires |q| < 8
    ensures DecodeQuanta(q).Some? ==> |q| % 4 == 0
  {
    hide SymbolValue, Octet1, Octet2, Octet3;
    if 4 < |q| {
      assert |q[4..]| == |q| - 4;
    }
  }

  /** What `Decode` gives back, octet by octet. */
  lemma DecodeMeans(text: GoString)
    requires Decode(text).Some?
    ensures Means(SkipBreaks(text), Decode(text).value)
  {
    hide DecodeQuanta, SkipBreaks, Means;
    QuantaMean(SkipBreaks(text));
  }
}
