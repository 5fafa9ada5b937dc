/**
  Metadata and its encoding as a list of key-value pairs (internal/util.go). The Go code ranges
  over a map, so the order of the keys in the list is arbitrary: the specification holds for
  every order.
 */
module MetadataCodec {
  import opened Frames
  import Base64

  const BIN_SUFFIX: GoString := "-bin"

  function LowerChar(c: GoChar): GoChar {
    if 'A' <= c <= 'Z' then (c as int + 32) as char else c
  }

  predicate IsAscii(s: GoString) {
    forall i :: 0 <= i < |s| ==> s[i] as int < 128
  }

  function AsciiLower(s: GoString): GoString {
    if |s| == 0 then [] else [LowerChar(s[0])] + AsciiLower(s[1..])
  }

  /**
    What lower-casing makes of a string that is not ASCII is left to the Unicode tables: nothing is
    known about it here, so everything below holds whatever it is.
   */
  const UnicodeLower: GoString -> GoString

  /** `strings.ToLower` */
  function Lower(s: GoString): GoString {
    if IsAscii(s) then AsciiLower(s) else UnicodeLower(s)
  }

  predicate HasBinSuffix(s: GoString) {
    |s| >= 4 && s[|s| - 4..] == BIN_SUFFIX
  }

  predicate IsBinary(key: GoString) {
    HasBinSuffix(Lower(key))
  }

  function Values(md: Metadata, key: GoString): seq<GoString> {
    if key in md then md[key] else []
  }

  /** `metadata.Join`: all the values of each key, in the order of the maps. */
  function Join(mds: seq<Metadata>): Metadata {
    if |mds| == 0 then map[]
    else
      var init, last := Join(mds[..|mds| - 1]), mds[|mds| - 1];
      map k | k in init.Keys + last.Keys :: Values(init, k) + Values(last, k)
  }

  function EncodeValue(key: GoString, value: GoString): GoString {
    if IsBinary(key) then Base64.Encode(value) else value
  }

  /** The pairs for the first `n` values of `key`. */
  function EncodeEntry(key: GoString, values: seq<GoString>): seq<KeyValue> {
    if |values| == 0 then []
    else
      EncodeEntry(key, values[..|values| - 1])
      + [KeyValue(key, EncodeValue(key, values[|values| - 1]))]
  }

  /** The pairs for the keys of `order`, in that order. */
  function EncodeIn(order: seq<GoString>, md: Metadata): seq<KeyValue>
    requires forall i :: 0 <= i < |order| ==> order[i] in md
  {
    if |order| == 0 then []
    else
      var last := order[|order| - 1];
      EncodeIn(order[..|order| - 1], md) + EncodeEntry(last, md[last])
  }

  /** `order` lists each key of `md` once. */
  predicate IsOrder(order: seq<GoString>, md: Metadata) {
    && (forall i :: 0 <= i < |order| ==> order[i] in md)
    && (forall k :: k in md ==> k in order)
    && (forall i, j :: 0 <= i < j < |order| ==> order[i] != order[j])
  }

  /** `kvs` is what `ToKeyValue(mds...)` returns for some iteration order. */
  ghost predicate Encodes(kvs: seq<KeyValue>, mds: seq<Metadata>) {
    exists order :: IsOrder(order, Join(mds)) && kvs == EncodeIn(order, Join(mds))
  }

  function DecodeValue(kv: KeyValue): Option<GoString> {
    if IsBinary(kv.key) then Base64.Decode(kv.value) else Some(kv.value)
  }

  /** `ToMetadata`: `None` when a binary value is not base64. */
  function Decode(kvs: seq<KeyValue>): Option<Metadata> {
    if |kvs| == 0 then Some(map[])
    else
      var md, last := Decode(kvs[..|kvs| - 1]), kvs[|kvs| - 1];
      var value := DecodeValue(last);
      if md.None? || value.None? then None
      else Some(Extend(md.value, last.key, [value.value]))
  }

  /** `md` with `values` added at the end of the list of the lower-cased `key`. */
  function Extend(md: Metadata, key: GoString, values: seq<GoString>): Metadata {
    if values == [] then md else md[Lower(key) := Values(md, Lower(key)) + values]
  }

  lemma DecodeAppend(kvs: seq<KeyValue>, kv: KeyValue)
    requires Decode(kvs).Some?
    ensures Decode(kvs + [kv]) ==
            if DecodeValue(kv).None? then None
            else Some(Extend(Decode(kvs).value, kv.key, [DecodeValue(kv).value]))
  {
    assert (kvs + [kv])[..|kvs|] == kvs;
  }

  lemma ExtendNothing(md: Metadata, key: GoString)
    ensures Extend(md, key, []) == md
  {
  }

  lemma ExtendTwice(md: Metadata, key: GoString, values: seq<GoString>, v: GoString)
    ensures Extend(Extend(md, key, values), key, [v]) == Extend(md, key, values + [v])
  {
    var had := Values(md, Lower(key));
    assert had + values + [v] == had + (values + [v]);
    if values == [] {
      assert values + [v] == [v];
    }
  }

  lemma {:induction false} DecodeFailsForever(kvs: seq<KeyValue>, n: nat)
    requires n <= |kvs| && Decode(kvs[..n]).None?
    ensures Decode(kvs).None?
    decreases |kvs| - n
  {
    if n == |kvs| {
      assert kvs[..n] == kvs;
    } else {
      assert kvs[..n + 1][..n] == kvs[..n];
      DecodeFailsForever(kvs, n + 1);
    }
  }

  // ----- round trip

  /** Keys stay apart once lower-cased, but for keys without values. */
  predicate LowerApart(md: Metadata) {
    forall a, b :: a in md && b in md && a != b && Lower(a) == Lower(b) ==> md[a] == [] && md[b] == []
  }

  /** `got` holds, for each key of `keys`, exactly the values `md` has, under the lower-cased key. */
  ghost predicate Carries(got: Metadata, md: Metadata, keys: set<GoString>)
    requires keys <= md.Keys
  {
    && (forall k :: k in keys ==> Values(got, Lower(k)) == md[k])
    && (forall g :: g in got ==> got[g] != [] && exists k :: k in keys && Lower(k) == g)
  }

  lemma DecodeEncodedValue(k: GoString, v: GoString)
    ensures DecodeValue(KeyValue(k, EncodeValue(k, v))) == Some(v)
  {
    Base64.RoundTrip(v);
  }

  lemma {:induction false} DecodeEntry(before: seq<KeyValue>, key: GoString, values: seq<GoString>)
    requires Decode(before).Some?
    ensures Decode(before + EncodeEntry(key, values)) == Some(Extend(Decode(before).value, key, values))
    decreases |values|
  {
    hide Decode, DecodeValue, EncodeValue, Extend;
    if |values| == 0 {
      assert before + EncodeEntry(key, values) == before;
      ExtendNothing(Decode(before).value, key);
    } else {
      var init, v := values[..|values| - 1], values[|values| - 1];
      var kv := KeyValue(key, EncodeValue(key, v));
      DecodeEntry(before, key, init);
      DecodeEncodedValue(key, v);
      assert before + EncodeEntry(key, values) == (before + EncodeEntry(key, init)) + [kv];
      DecodeAppend(before + EncodeEntry(key, init), kv);
      ExtendTwice(Decode(before).value, key, init, v);
      assert values == init + [v];
    }
  }

  /** Adding a key keeps what the others carry. */
  lemma CarriesExtend(before: Metadata, md: Metadata, keys: set<GoString>, k: GoString)
    requires keys <= md.Keys && k in md && k !in keys && LowerApart(md)
    requires Carries(before, md, keys)
    ensures Carries(Extend(before, k, md[k]), md, keys + {k})
  {
    hide Lower;
    var got := Extend(before, k, md[k]);
    assert Lower(k) !in before;
    assert Values(got, Lower(k)) == md[k];
    forall x | x in keys
      ensures Values(got, Lower(x)) == md[x]
    {
      assert Values(before, Lower(x)) == md[x];
    }
    forall g | g in got
      ensures got[g] != [] && exists x :: x in keys + {k} && Lower(x) == g
    {
      if g in before {
        var x :| x in keys && Lower(x) == g;
        assert x in keys + {k};
      } else {
        assert k in keys + {k};
      }
    }
  }

  lemma {:induction false} DecodeOrder(order: seq<GoString>, md: Metadata)
    requires forall i :: 0 <= i < |order| ==> order[i] in md
    requires forall i, j :: 0 <= i < j < |order| ==> order[i] != order[j]
    requires LowerApart(md)
    ensures Decode(EncodeIn(order, md)).Some?
    ensures Carries(Decode(EncodeIn(order, md)).value, md, set k | k in order)
  {
    if |order| > 0 {
      var init, k := order[..|order| - 1], order[|order| - 1];
      DecodeOrder(init, md);
      DecodeEntry(EncodeIn(init, md), k, md[k]);
      hide Decode, Extend, EncodeEntry, Carries, Lower;
      assert order == init + [k];
      assert (set x | x in order) == (set x | x in init) + {k};
      CarriesExtend(Decode(EncodeIn(init, md)).value, md, (set x | x in init), k);
    }
  }

  /**
    Every encoding of a list of metadata maps, in every iteration order, decodes, and gives back
    for each key exactly its joined values in order, under the lower-cased key; keys whose value
    list is empty leave no trace. The keys must stay apart when lower-cased.
   */
  lemma RoundTripLowered(kvs: seq<KeyValue>, mds: seq<Metadata>)
    requires Encodes(kvs, mds)
    requires LowerApart(Join(mds))
    ensures Decode(kvs).Some?
    ensures Carries(Decode(kvs).value, Join(mds), Join(mds).Keys)
  {
    hide Lower;
    var order :| IsOrder(order, Join(mds)) && kvs == EncodeIn(order, Join(mds));
    DecodeOrder(order, Join(mds));
    assert (set k | k in order) == Join(mds).Keys;
  }

  /** How many values the keys of `order` have that lower-case to `g`. */
  function CountFor(order: seq<GoString>, md: Metadata, g: GoString): nat
    requires forall i :: 0 <= i < |order| ==> order[i] in md
  {
    if |order| == 0 then 0
    else
      var last := order[|order| - 1];
      CountFor(order[..|order| - 1], md, g) + (if Lower(last) == g then |md[last]| else 0)
  }

  /** Nothing is lost: a decoded key has as many values as the keys that lower-case to it. */
  lemma {:induction false} DecodedCount(order: seq<GoString>, md: Metadata, g: GoString)
    requires forall i :: 0 <= i < |order| ==> order[i] in md
    ensures Decode(EncodeIn(order, md)).Some?
    ensures |Values(Decode(EncodeIn(order, md)).value, g)| == CountFor(order, md, g)
  {
    hide Lower;
    if |order| > 0 {
      var init, k := order[..|order| - 1], order[|order| - 1];
      DecodedCount(init, md, g);
      DecodeEntry(EncodeIn(init, md), k, md[k]);
    }
  }

  lemma {:induction false} CountAtLeast(order: seq<GoString>, md: Metadata, i: nat, j: nat)
    requires forall x :: 0 <= x < |order| ==> order[x] in md
    requires i < |order| && j < |order| && Lower(order[i]) == Lower(order[j])
    ensures CountFor(order, md, Lower(order[i])) >= |md[order[i]]| + (if i == j then 0 else |md[order[j]]|)
  {
    hide Lower;
    var n := |order| - 1;
    if i < n && j < n {
      CountAtLeast(order[..n], md, i, j);
    } else if i < n {
      CountAtLeast(order[..n], md, i, i);
    } else if j < n {
      CountAtLeast(order[..n], md, j, j);
    }
  }

  /**
    The condition is exact: an encoding decodes to the joined values, key by key, if and only if
    keys with values stay apart when lower-cased. Otherwise the values of two keys run together.
   */
  lemma RoundTripExactly(kvs: seq<KeyValue>, mds: seq<Metadata>)
    requires Encodes(kvs, mds)
    ensures Decode(kvs).Some?
    ensures Carries(Decode(kvs).value, Join(mds), Join(mds).Keys) <==> LowerApart(Join(mds))
  {
    var md := Join(mds);
    EncodedAlwaysDecodes(kvs, mds);
    if LowerApart(md) {
      RoundTripLowered(kvs, mds);
    } else if Carries(Decode(kvs).value, md, md.Keys) {
      var order :| IsOrder(order, md) && kvs == EncodeIn(order, md);
      CollidingKeys(order, md);
    }
  }

  lemma CollidingKeys(order: seq<GoString>, md: Metadata)
    requires IsOrder(order, md) && Decode(EncodeIn(order, md)).Some?
    requires Carries(Decode(EncodeIn(order, md)).value, md, md.Keys)
    ensures LowerApart(md)
  {
    hide Decode, Lower, EncodeIn, CountFor;
    var got := Decode(EncodeIn(order, md)).value;
    forall a, b | a in md && b in md && a != b && Lower(a) == Lower(b)
      ensures md[a] == [] && md[b] == []
    {
      var i :| 0 <= i < |order| && order[i] == a;
      var j :| 0 <= j < |order| && order[j] == b;
      DecodedCount(order, md, Lower(a));
      CountAtLeast(order, md, i, j);
      assert Values(got, Lower(a)) == md[a] && Values(got, Lower(b)) == md[b];
    }
  }

  /** Metadata as the gRPC library builds it: lower-case keys, each with a value. */
  predicate Canonical(md: Metadata) {
    forall k :: k in md ==> Lower(k) == k && md[k] != []
  }

  /** On canonical metadata, decoding gives back exactly the join. */
  lemma RoundTrip(kvs: seq<KeyValue>, mds: seq<Metadata>)
    requires Encodes(kvs, mds)
    requires forall i :: 0 <= i < |mds| ==> Canonical(mds[i])
    ensures Decode(kvs) == Some(Join(mds))
  {
    JoinCanonical(mds);
    RoundTripLowered(kvs, mds);
    CarriesCanonical(Decode(kvs).value, Join(mds));
  }

  lemma CarriesCanonical(got: Metadata, md: Metadata)
    requires Canonical(md) && Carries(got, md, md.Keys)
    ensures got == md
  {
    hide Lower;
    forall k | k in md
      ensures k in got && got[k] == md[k]
    {
      assert Values(got, Lower(k)) == md[k];
    }
    forall g | g in got
      ensures g in md
    {
      var k :| k in md.Keys && Lower(k) == g;
    }
  }

  lemma {:induction false} JoinCanonical(mds: seq<Metadata>)
    requires forall i :: 0 <= i < |mds| ==> Canonical(mds[i])
    ensures Canonical(Join(mds))
  {
    hide Lower;
    if |mds| > 0 {
      JoinCanonical(mds[..|mds| - 1]);
    }
  }

  /** Every encoding decodes, whatever the keys and values are. */
  lemma {:induction false} EncodedAlwaysDecodes(kvs: seq<KeyValue>, mds: seq<Metadata>)
    requires Encodes(kvs, mds)
    ensures Decode(kvs).Some?
  {
    var order :| IsOrder(order, Join(mds)) && kvs == EncodeIn(order, Join(mds));
    OrderDecodes(order, Join(mds));
  }

  lemma {:induction false} OrderDecodes(order: seq<GoString>, md: Metadata)
    requires forall i :: 0 <= i < |order| ==> order[i] in md
    ensures Decode(EncodeIn(order, md)).Some?
  {
    if |order| > 0 {
      OrderDecodes(order[..|order| - 1], md);
      DecodeEntry(EncodeIn(order[..|order| - 1], md), order[|order| - 1], md[order[|order| - 1]]);
    }
  }

  // ----- what encoding and decoding mean, pair by pair

  /** The key, once lower-cased, ends in "-bin". */
  predicate EndsInBin(key: GoString) {
    var lower := Lower(key);
    |lower| >= 4 && lower[|lower| - 4] == '-' && lower[|lower| - 3] == 'b' && lower[|lower| - 2] == 'i' && lower[|lower| - 1] == 'n'
  }

  lemma BinaryMeans(key: GoString)
    ensures IsBinary(key) <==> EndsInBin(key)
  {
    hide Lower;
    var lower := Lower(key);
    if |lower| >= 4 {
      var tail := lower[|lower| - 4..];
      assert tail[0] == lower[|lower| - 4] && tail[1] == lower[|lower| - 3] && tail[2] == lower[|lower| - 2] && tail[3] == lower[|lower| - 1];
      assert BIN_SUFFIX == ['-', 'b', 'i', 'n'];
      assert tail == [tail[0], tail[1], tail[2], tail[3]];
    }
  }

  /** Lower-casing of an ASCII string, letter by letter. */
  lemma {:induction false} AsciiLowerMeans(s: GoString, i: nat)
    requires i < |s|
    ensures |AsciiLower(s)| == |s|
    ensures forall k :: 0 <= k < 26 && s[i] == Base64.UPPER[k] ==> AsciiLower(s)[i] == Base64.LOWER[k]
    ensures s[i] !in Base64.UPPER ==> AsciiLower(s)[i] == s[i]
  {
    hide LowerChar;
    if i > 0 {
      AsciiLowerMeans(s[1..], i - 1);
    } else {
      LowerCharMeans(s[0]);
      if |s| > 1 {
        AsciiLowerMeans(s[1..], 0);
      }
    }
  }

  lemma LowerCharMeans(c: GoChar)
    ensures forall k :: 0 <= k < 26 && c == Base64.UPPER[k] ==> LowerChar(c) == Base64.LOWER[k]
    ensures c !in Base64.UPPER ==> LowerChar(c) == c
  {
    if 'A' <= c <= 'Z' {
      assert Base64.UPPER[c as int - 'A' as int] == c;
    }
    forall k | 0 <= k < 26 && c == Base64.UPPER[k]
      ensures LowerChar(c) == Base64.LOWER[k]
    {
      LetterPlace(k);
    }
  }

  lemma LetterPlace(k: nat)
    requires k < 26
    ensures Base64.UPPER[k] as int == 'A' as int + k && Base64.LOWER[k] as int == 'a' as int + k
  {
  }

  lemma JoinLast(mds: seq<Metadata>, md: Metadata, k: GoString)
    ensures Values(Join(mds + [md]), k) == Values(Join(mds), k) + Values(md, k)
    ensures k in Join(mds + [md]) <==> k in Join(mds) || k in md
  {
    assert (mds + [md])[..|mds|] == mds;
  }

  lemma JoinNothing(k: GoString)
    ensures Values(Join([]), k) == [] && k !in Join([])
  {
  }

  /** `metadata.Join`, from the front: the values of each key, map after map. */
  lemma {:induction false} JoinMeans(md: Metadata, rest: seq<Metadata>, k: GoString)
    ensures Values(Join([md] + rest), k) == Values(md, k) + Values(Join(rest), k)
    ensures k in Join([md] + rest) <==> k in md || k in Join(rest)
    decreases |rest|
  {
    hide Join, Values;
    if |rest| == 0 {
      JoinNothing(k);
      JoinLast([], md, k);
      assert [md] + rest == [] + [md] && rest == [];
    } else {
      var init, last := rest[..|rest| - 1], rest[|rest| - 1];
      JoinMeans(md, init, k);
      JoinLast([md] + init, last, k);
      JoinLast(init, last, k);
      assert [md] + rest == ([md] + init) + [last] && rest == init + [last];
      assert (Values(md, k) + Values(Join(init), k)) + Values(last, k) == Values(md, k) + (Values(Join(init), k) + Values(last, k));
    }
  }

  /** The values of the pairs with this key, in order. */
  function PairsFor(kvs: seq<KeyValue>, key: GoString): seq<GoString> {
    if |kvs| == 0 then []
    else
      var last := kvs[|kvs| - 1];
      PairsFor(kvs[..|kvs| - 1], key) + (if last.key == key then [last.value] else [])
  }

  lemma {:induction false} PairsConcat(a: seq<KeyValue>, b: seq<KeyValue>, key: GoString)
    ensures PairsFor(a + b, key) == PairsFor(a, key) + PairsFor(b, key)
    decreases |b|
  {
    if |b| == 0 {
      assert a + b == a;
    } else {
      assert (a + b)[..|a + b| - 1] == a + b[..|b| - 1];
      PairsConcat(a, b[..|b| - 1], key);
    }
  }

  /** The text of one value: base64 under a binary key, and the value itself otherwise. */
  function TextOf(key: GoString, value: GoString): GoString {
    if EndsInBin(key) then Base64.Encode(value) else value
  }

  /** The texts of the values, in order. */
  predicate AreTexts(texts: seq<GoString>, key: GoString, values: seq<GoString>) {
    |texts| == |values| && forall i :: 0 <= i < |values| ==> texts[i] == TextOf(key, values[i])
  }

  lemma {:induction false} EntryPairs(k: GoString, values: seq<GoString>, key: GoString)
    ensures k == key ==> AreTexts(PairsFor(EncodeEntry(k, values), key), key, values)
    ensures k != key ==> PairsFor(EncodeEntry(k, values), key) == []
  {
    hide Base64.Encode, IsBinary, EndsInBin;
    if |values| > 0 {
      var init, v := values[..|values| - 1], values[|values| - 1];
      EntryPairs(k, init, key);
      BinaryMeans(k);
      var kv := KeyValue(k, EncodeValue(k, v));
      assert EncodeEntry(k, values) == EncodeEntry(k, init) + [kv];
      assert (EncodeEntry(k, init) + [kv])[..|EncodeEntry(k, init)|] == EncodeEntry(k, init);
    }
  }

  lemma {:induction false} OrderPairs(order: seq<GoString>, md: Metadata, key: GoString)
    requires forall i :: 0 <= i < |order| ==> order[i] in md
    requires forall i, j :: 0 <= i < j < |order| ==> order[i] != order[j]
    ensures key in order ==> AreTexts(PairsFor(EncodeIn(order, md), key), key, md[key])
    ensures key !in order ==> PairsFor(EncodeIn(order, md), key) == []
  {
    hide AreTexts, EncodeEntry;
    if |order| > 0 {
      var init, last := order[..|order| - 1], order[|order| - 1];
      OrderPairs(init, md, key);
      EntryPairs(last, md[last], key);
      PairsConcat(EncodeIn(init, md), EncodeEntry(last, md[last]), key);
      assert order == init + [last];
      var front, back := PairsFor(EncodeIn(init, md), key), PairsFor(EncodeEntry(last, md[last]), key);
      assert front + [] == front && [] + back == back;
    }
  }

  /**
    What an encoding is, for every iteration order: for each key, the pairs with that key are its
    joined values in order, as base64 when the lower-cased key ends in "-bin" and as they are
    otherwise; and there are no other pairs.
   */
  lemma EncodingMeans(kvs: seq<KeyValue>, mds: seq<Metadata>, key: GoString)
    requires Encodes(kvs, mds)
    ensures AreTexts(PairsFor(kvs, key), key, Values(Join(mds), key))
  {
    hide Join, EncodeIn, AreTexts;
    var order :| IsOrder(order, Join(mds)) && kvs == EncodeIn(order, Join(mds));
    OrderPairs(order, Join(mds), key);
    NoTexts(key);
  }

  lemma NoTexts(key: GoString)
    ensures AreTexts([], key, [])
  {
  }

  /** The pairs whose key lower-cases to `g`, in order. */
  function PairsUnder(kvs: seq<KeyValue>, g: GoString): seq<KeyValue> {
    if |kvs| == 0 then []
    else
      var last := kvs[|kvs| - 1];
      PairsUnder(kvs[..|kvs| - 1], g) + (if Lower(last.key) == g then [last] else [])
  }

  /** The value behind the text of a pair; `None` when it is binary and not base64. */
  function ValueOf(kv: KeyValue): Option<GoString> {
    if EndsInBin(kv.key) then Base64.Decode(kv.value) else Some(kv.value)
  }

  predicate AreValues(values: seq<GoString>, kvs: seq<KeyValue>) {
    |values| == |kvs| && forall i :: 0 <= i < |kvs| ==> ValueOf(kvs[i]) == Some(values[i])
  }

  /**
    What decoding does: it fails exactly when some pair under a key that ends in "-bin" is not base64;
    otherwise each lower-case key has the values of its pairs, in order.
   */
  lemma {:induction false} DecodingMeans(kvs: seq<KeyValue>, g: GoString)
    ensures Decode(kvs).Some? <==> forall i :: 0 <= i < |kvs| ==> ValueOf(kvs[i]).Some?
    ensures Decode(kvs).Some? ==> AreValues(Values(Decode(kvs).value, g), PairsUnder(kvs, g))
  {
    hide Base64.Decode, IsBinary, EndsInBin, Lower;
    if |kvs| > 0 {
      var init, last := kvs[..|kvs| - 1], kvs[|kvs| - 1];
      DecodingMeans(init, g);
      BinaryMeans(last.key);
      assert kvs == init + [last];
    }
  }

  // ----- the loops

  /** `order` lists each key of `md` outside `left` once. */
  predicate IsPartialOrder(order: seq<GoString>, md: Metadata, left: set<GoString>) {
    && (forall i :: 0 <= i < |order| ==> order[i] in md && order[i] !in left)
    && (forall k :: k in md && k !in left ==> k in order)
    && (forall i, j :: 0 <= i < j < |order| ==> order[i] != order[j])
  }

  lemma OrderStep(order: seq<GoString>, md: Metadata, left: set<GoString>, k: GoString)
    requires IsPartialOrder(order, md, left) && k in left && k in md
    ensures IsPartialOrder(order + [k], md, left - {k})
    ensures EncodeIn(order + [k], md) == EncodeIn(order, md) + EncodeEntry(k, md[k])
  {
    assert (order + [k])[..|order|] == order;
    assert (order + [k])[|order|] == k;
  }

  /** The inner loop of `ToKeyValue`, over the values of one key. */
  method AppendEntry(h: seq<KeyValue>, k: GoString, vs: seq<GoString>) returns (r: seq<KeyValue>)
    ensures r == h + EncodeEntry(k, vs)
  {
    r := h;
    var isBin := IsBinary(k);
    for i := 0 to |vs|
      invariant r == h + EncodeEntry(k, vs[..i])
    {
      var v := vs[i];
      if isBin {
        v := Base64.Encode(v);
      }
      assert vs[..i + 1][..i] == vs[..i];
      r := r + [KeyValue(k, v)];
    }
    assert vs[..|vs|] == vs;
  }

  /** `ToKeyValue`: the loop over the joined map, taking its keys in any order. */
  method ToKeyValue(mds: seq<Metadata>) returns (h: seq<KeyValue>)
    ensures Encodes(h, mds)
  {
    h := [];
    var md := Join(mds);
    var left := md.Keys;
    ghost var order: seq<GoString> := [];
    while left != {}
      invariant left <= md.Keys
      invariant IsPartialOrder(order, md, left)
      invariant h == EncodeIn(order, md)
      decreases left
    {
      var k :| k in left;
      h := AppendEntry(h, k, md[k]);
      OrderStep(order, md, left, k);
      left := left - {k};
      order := order + [k];
    }
    assert IsOrder(order, md);
  }

  /** `ToMetadata`: the loop that stops at the first binary value that is not base64. */
  method ToMetadata(kvs: seq<KeyValue>) returns (r: Option<Metadata>)
    ensures r == Decode(kvs)
  {
    hide Lower;
    var md: Metadata := map[];
    for i := 0 to |kvs|
      invariant Decode(kvs[..i]) == Some(md)
    {
      var k := Lower(kvs[i].key);
      var v := kvs[i].value;
      assert kvs[..i + 1][..i] == kvs[..i];
      if HasBinSuffix(k) {
        var vv := Base64.Decode(v);
        if vv.None? {
          DecodeFailsForever(kvs, i + 1);
          return None;
        }
        v := vv.value;
      }
      md := md[k := Values(md, k) + [v]];
    }
    assert kvs[..|kvs|] == kvs;
    r := Some(md);
  }
}
