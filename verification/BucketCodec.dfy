/** The binary bucket artifacts, and decoding a whole state from them. */
module BucketCodec {
  import opened Results
  import opened Canonicalize

  type Byte = b: int | 0 <= b < 256

  const BUCKET_MAGIC: seq<Byte> := [0x50, 0x42, 0x45, 0x42, 0x4B, 0x54, 0x30, 0x31]
  const STATE_SCHEMA_VERSION := "pbe.replay.structural-canonicalize-state.v4"
  const BUCKET_FORMAT := "pbe.replay.exact-id-bucket.v1"
  const BUCKET_FORMAT_VERSION := 1
  const HEADER_SIZE := 26
  const MAX_IDENTITY_MATERIALIZATION := 0x10_0000
  const MAX_BUCKET_PAYLOAD_BYTES := HEADER_SIZE + MAX_IDENTITY_MATERIALIZATION * 8

  // ---------------------------------------------------------------------------------
  // Little-endian integers
  // ---------------------------------------------------------------------------------

  function Bound(width: nat): nat {
    if width == 0 then 1 else 256 * Bound(width - 1)
  }

  function ToBytes(v: nat, width: nat): (bytes: seq<Byte>)
    ensures |bytes| == width
  {
    if width == 0 then [] else [v % 256] + ToBytes(v / 256, width - 1)
  }

  function FromBytes(bytes: seq<Byte>): (v: nat)
    ensures v < Bound(|bytes|)
  {
    if bytes == [] then 0 else bytes[0] + 256 * FromBytes(bytes[1..])
  }

  lemma {:induction false} NumberRoundTrip(v: nat, width: nat)
    requires v < Bound(width)
    ensures FromBytes(ToBytes(v, width)) == v
  {
    if width > 0 {
      NumberRoundTrip(v / 256, width - 1);
      assert ToBytes(v, width)[1..] == ToBytes(v / 256, width - 1);
    }
  }

  lemma {:induction false} BytesRoundTrip(bytes: seq<Byte>)
    ensures ToBytes(FromBytes(bytes), |bytes|) == bytes
  {
    if bytes != [] {
      var rest := FromBytes(bytes[1..]);
      BytesRoundTrip(bytes[1..]);
      assert (bytes[0] + 256 * rest) % 256 == bytes[0] && (bytes[0] + 256 * rest) / 256 == rest;
      assert bytes == [bytes[0]] + bytes[1..];
    }
  }

  // ---------------------------------------------------------------------------------
  // Values
  // ---------------------------------------------------------------------------------

  predicate IsWord(v: int) {
    0 <= v < Bound(8)
  }

  function EncodeValues(values: seq<int>): seq<Byte> {
    if values == [] then [] else ToBytes(if values[0] < 0 then 0 else values[0], 8) + EncodeValues(values[1..])
  }

  function DecodeValues(bytes: seq<Byte>): seq<int> {
    if |bytes| < 8 then [] else [FromBytes(bytes[..8])] + DecodeValues(bytes[8..])
  }

  lemma {:induction false} ValuesRoundTrip(values: seq<int>)
    requires forall v :: v in values ==> IsWord(v)
    ensures |EncodeValues(values)| == 8 * |values| && DecodeValues(EncodeValues(values)) == values
  {
    if values != [] {
      var first := values[0];
      assert first in values && IsWord(first);
      var word, rest := ToBytes(first, 8), EncodeValues(values[1..]);
      ValuesRoundTrip(values[1..]);
      NumberRoundTrip(values[0], 8);
      assert (word + rest)[..8] == word && (word + rest)[8..] == rest;
      assert values == [values[0]] + values[1..];
    }
  }

  lemma {:induction false} WordsRoundTrip(bytes: seq<Byte>)
    requires |bytes| % 8 == 0
    ensures EncodeValues(DecodeValues(bytes)) == bytes && |DecodeValues(bytes)| == |bytes| / 8
    ensures forall v :: v in DecodeValues(bytes) ==> IsWord(v)
  {
    if bytes != [] {
      var values := DecodeValues(bytes);
      WordsRoundTrip(bytes[8..]);
      BytesRoundTrip(bytes[..8]);
      assert values[1..] == DecodeValues(bytes[8..]);
      assert bytes == bytes[..8] + bytes[8..];
    }
  }

  // ---------------------------------------------------------------------------------
  // One bucket
  // ---------------------------------------------------------------------------------

  function Header(n: nat, index: nat, count: nat): seq<Byte> {
    BUCKET_MAGIC + ToBytes(BUCKET_FORMAT_VERSION, 2) + ToBytes(n, 4) + ToBytes(index, 4) + ToBytes(count, 8)
  }

  function EncodeBucket(n: nat, index: nat, values: seq<int>): seq<Byte> {
    Header(n, index, |values|) + EncodeValues(values)
  }

  /** A bucket that fits the format and the materialization bound. */
  ghost predicate Encodable(h: Hash, n: nat, index: nat, values: seq<int>) {
    && 0 < n < Bound(4) && index < Bound(4) && |values| <= MAX_IDENTITY_MATERIALIZATION
    && BucketValid(h, n, index, values) && forall v :: v in values ==> IsWord(v)
  }

  function FieldAt(payload: seq<Byte>, from: nat, to: nat): nat
    requires from <= to <= |payload|
  {
    FromBytes(payload[from..to])
  }

  predicate HeaderMatches(n: nat, index: nat, payload: seq<Byte>) {
    && HEADER_SIZE <= |payload| <= MAX_BUCKET_PAYLOAD_BYTES
    && payload[..8] == BUCKET_MAGIC && FieldAt(payload, 8, 10) == BUCKET_FORMAT_VERSION
    && FieldAt(payload, 10, 14) == n && FieldAt(payload, 14, 18) == index
    && |payload| == HEADER_SIZE + FieldAt(payload, 18, 26) * 8
  }

  /** What the bucket reader accepts. */
  ghost predicate Accepts(h: Hash, n: nat, index: nat, payload: seq<Byte>) {
    n > 0 && HeaderMatches(n, index, payload) && BucketValid(h, n, index, DecodeValues(payload[HEADER_SIZE..]))
  }

  lemma HeaderLayout(n: nat, index: nat, count: nat, body: seq<Byte>)
    ensures var payload := Header(n, index, count) + body;
      && |payload| == HEADER_SIZE + |body| && payload[..8] == BUCKET_MAGIC && payload[HEADER_SIZE..] == body
      && payload[8..10] == ToBytes(BUCKET_FORMAT_VERSION, 2) && payload[10..14] == ToBytes(n, 4)
      && payload[14..18] == ToBytes(index, 4) && payload[18..26] == ToBytes(count, 8)
  {
  }

  lemma HeaderFields(n: nat, index: nat, count: nat, body: seq<Byte>)
    requires n < Bound(4) && index < Bound(4) && count < Bound(8)
    ensures var payload := Header(n, index, count) + body;
      && |payload| == HEADER_SIZE + |body| && payload[..8] == BUCKET_MAGIC && payload[HEADER_SIZE..] == body
      && FieldAt(payload, 8, 10) == BUCKET_FORMAT_VERSION && FieldAt(payload, 10, 14) == n
      && FieldAt(payload, 14, 18) == index && FieldAt(payload, 18, 26) == count
  {
    NumberRoundTrip(BUCKET_FORMAT_VERSION, 2);
    NumberRoundTrip(n, 4);
    NumberRoundTrip(index, 4);
    NumberRoundTrip(count, 8);
    HeaderLayout(n, index, count, body);
  }

  lemma SmallCounts(count: nat)
    requires count <= MAX_IDENTITY_MATERIALIZATION
    ensures count < Bound(8)
  {
    assert Bound(8) == 256 * Bound(7) && Bound(7) == 256 * Bound(6) && Bound(6) == 256 * Bound(5);
    assert Bound(5) == 256 * Bound(4) && Bound(4) == 256 * Bound(3) && Bound(3) == 256 * Bound(2);
    assert Bound(2) == 256 * Bound(1) && Bound(1) == 256 * Bound(0);
  }

  /** Decoding an encoded bucket gives its values back. */
  lemma DecodeEncoded(h: Hash, n: nat, index: nat, values: seq<int>)
    requires Encodable(h, n, index, values)
    ensures var payload := EncodeBucket(n, index, values);
      Accepts(h, n, index, payload) && DecodeValues(payload[HEADER_SIZE..]) == values
  {
    SmallCounts(|values|);
    ValuesRoundTrip(values);
    HeaderFields(n, index, |values|, EncodeValues(values));
  }

  lemma HeaderRebuilt(n: nat, index: nat, payload: seq<Byte>)
    requires HeaderMatches(n, index, payload)
    ensures payload == Header(n, index, FieldAt(payload, 18, 26)) + payload[HEADER_SIZE..]
  {
    BytesRoundTrip(payload[8..10]);
    BytesRoundTrip(payload[10..14]);
    BytesRoundTrip(payload[14..18]);
    BytesRoundTrip(payload[18..26]);
    assert payload == payload[..8] + payload[8..10] + payload[10..14] + payload[14..18] + payload[18..26] +
        payload[26..];
  }

  /** Every accepted payload re-encodes to the same bytes, so acceptance is exactly being
      the encoding of a bucket that fits. */
  lemma EncodeDecoded(h: Hash, n: nat, index: nat, payload: seq<Byte>)
    requires Accepts(h, n, index, payload)
    ensures var values := DecodeValues(payload[HEADER_SIZE..]);
      EncodeBucket(n, index, values) == payload && Encodable(h, n, index, values)
  {
    var body := payload[HEADER_SIZE..];
    HeaderRebuilt(n, index, payload);
    WordsRoundTrip(body);
    FieldsFit(payload);
  }

  lemma FieldsFit(payload: seq<Byte>)
    requires |payload| >= HEADER_SIZE
    ensures FieldAt(payload, 10, 14) < Bound(4) && FieldAt(payload, 14, 18) < Bound(4)
  {
    assert |payload[10..14]| == 4 && |payload[14..18]| == 4;
  }

  datatype CodecError = TooLarge | Truncated | WrongMagic | WrongVersion | WrongOrder | WrongLength | ValuesInvalid
    | SummaryInvalid | Incomplete | CountMismatch | StateInvalid

  method CheckHeader(n: nat, index: nat, payload: seq<Byte>) returns (error: Option<CodecError>)
    ensures error.None? <==> HeaderMatches(n, index, payload)
  {
    if |payload| > MAX_BUCKET_PAYLOAD_BYTES { return Some(TooLarge); }
    if |payload| < HEADER_SIZE { return Some(Truncated); }
    if payload[..8] != BUCKET_MAGIC { return Some(WrongMagic); }
    if FieldAt(payload, 8, 10) != BUCKET_FORMAT_VERSION { return Some(WrongVersion); }
    if FieldAt(payload, 10, 14) != n || FieldAt(payload, 14, 18) != index { return Some(WrongOrder); }
    if |payload| != HEADER_SIZE + FieldAt(payload, 18, 26) * 8 { return Some(WrongLength); }
    error := None;
  }

  lemma SliceOfDrop<T>(s: seq<T>, d: nat, a: nat, b: nat)
    requires a <= b && d + b <= |s|
    ensures s[d..][a..b] == s[d + a..d + b]
  {
  }

  lemma {:induction false} DecodeValuesAt(bytes: seq<Byte>, n: nat, k: nat)
    requires |bytes| == 8 * n && k < n
    ensures k < |DecodeValues(bytes)| && DecodeValues(bytes)[k] == FromBytes(bytes[8 * k..8 * k + 8])
  {
    if k > 0 {
      var rest := bytes[8..];
      DecodeValuesAt(rest, n - 1, k - 1);
      SliceOfDrop(bytes, 8, 8 * k - 8, 8 * k);
    }
  }

  lemma NextValue(h: Hash, n: nat, index: nat, all: seq<int>, k: nat)
    requires n > 0 && k < |all| && BucketValid(h, n, index, all[..k])
    ensures var previous := if k == 0 then 0 else all[k - 1];
      if all[k] > previous && BucketIndex(h, n, all[k]) == index
      then BucketValid(h, n, index, all[..k + 1]) else !BucketValid(h, n, index, all)
  {
    var previous := if k == 0 then 0 else all[k - 1];
    assert all[..k + 1] == all[..k] + [all[k]];
    if all[k] > previous && BucketIndex(h, n, all[k]) == index {
      forall i | 0 <= i < k ensures all[i] < all[k] {
        assert i < k - 1 ==> all[..k][i] < all[..k][k - 1];
      }
      if k > 0 { assert all[..k][k - 1] in all[..k]; }
    } else {
      var value := all[k];
      assert value in all;
      assert k > 0 ==> all[k - 1] == previous;
    }
  }

  /** Reads the words of a body in order, checking that they ascend and belong here. */
  method ReadValues(h: Hash, n: nat, index: nat, body: seq<Byte>) returns (values: Option<seq<int>>)
    requires n > 0 && |body| % 8 == 0
    ensures values == if BucketValid(h, n, index, DecodeValues(body)) then Some(DecodeValues(body)) else None
  {
    ghost var all := DecodeValues(body);
    WordsRoundTrip(body);
    var read: seq<int> := [];
    var previous := 0;
    var count := |body| / 8;
    for k := 0 to count
      invariant read == all[..k] && BucketValid(h, n, index, read)
      invariant previous == if k == 0 then 0 else all[k - 1]
    {
      var value := FromBytes(body[8 * k..8 * k + 8]);
      DecodeValuesAt(body, count, k);
      NextValue(h, n, index, all, k);
      if value <= previous || BucketIndex(h, n, value) != index {
        return None;
      }
      read, previous := read + [value], value;
    }
    assert all[..|all|] == all;
    values := Some(read);
  }

  /** Reads one bucket artifact. */
  method WriteBucketPayload(h: Hash, n: nat, index: nat, payload: seq<Byte>) returns (r: Result<seq<int>, CodecError>)
    requires n > 0
    ensures r.Ok? <==> Accepts(h, n, index, payload)
    ensures r.Ok? ==> r.value == DecodeValues(payload[HEADER_SIZE..]) && EncodeBucket(n, index, r.value) == payload
  {
    var error := CheckHeader(n, index, payload);
    if error.Some? { return Err(error.value); }
    var values := ReadValues(h, n, index, payload[HEADER_SIZE..]);
    if values.None? { return Err(ValuesInvalid); }
    EncodeDecoded(h, n, index, payload);
    r := Ok(values.value);
  }

  // ---------------------------------------------------------------------------------
  // Whole states
  // ---------------------------------------------------------------------------------

  datatype Payload = Payload(bytes: seq<Byte>)

  /** Everything about a state but the bucket contents. */
  datatype Summary = Summary(
    schema: string, bucketFormat: string, formatVersion: int,
    bucketCount: int, bucketCounts: seq<int>, positiveRows: int, positiveGroups: int, witnessRows: int,
    first: Option<Boundary>, last: Option<Boundary>)

  function StateSummary(s: State): Summary {
    Summary(STATE_SCHEMA_VERSION, BUCKET_FORMAT, BUCKET_FORMAT_VERSION,
            s.bucketCount, s.bucketCounts, s.positiveRows, s.positiveGroups, s.witnessRows, s.first, s.last)
  }

  predicate CountsEach(m: Summary) {
    m.bucketCount > 0 && |m.bucketCounts| == m.bucketCount
  }

  predicate SummaryValid(m: Summary) {
    && m.schema == STATE_SCHEMA_VERSION && m.bucketFormat == BUCKET_FORMAT && m.formatVersion == BUCKET_FORMAT_VERSION
    && 0 <= m.bucketCount && BucketCountValid(m.bucketCount) && |m.bucketCounts| == m.bucketCount
    && (forall i :: 0 <= i < |m.bucketCounts| ==> m.bucketCounts[i] >= 0)
    && m.positiveRows >= 0 && m.positiveGroups >= 0 && m.witnessRows >= 0
  }

  function EncodeState(s: State): seq<Payload>
    requires |s.buckets| == s.bucketCount
  {
    seq(s.bucketCount, i requires 0 <= i < s.bucketCount =>
      Payload(EncodeBucket(s.bucketCount, i, s.buckets[i].values)))
  }

  /** A valid state whose buckets fit the format. */
  ghost predicate StateEncodable(h: Hash, s: State) {
    && Valid(h, s)
    && forall i :: 0 <= i < s.bucketCount ==> Encodable(h, s.bucketCount, i, s.buckets[i].values)
  }

  /** The state that artifacts describe, if they describe one. */
  ghost predicate Describes(h: Hash, m: Summary, payloads: seq<Payload>, s: State) {
    StateEncodable(h, s) && StateSummary(s) == m && EncodeState(s) == payloads
  }

  function BodyValues(payload: Payload): seq<int> {
    if |payload.bytes| < HEADER_SIZE then [] else DecodeValues(payload.bytes[HEADER_SIZE..])
  }

  ghost predicate PayloadFits(h: Hash, m: Summary, payloads: seq<Payload>, i: nat)
    requires i < |payloads| && i < |m.bucketCounts| && m.bucketCount > 0
  {
    && Accepts(h, m.bucketCount, i, payloads[i].bytes)
    && |BodyValues(payloads[i])| == m.bucketCounts[i]
  }

  ghost predicate PayloadsFit(h: Hash, m: Summary, payloads: seq<Payload>)
    requires CountsEach(m)
  {
    |payloads| == m.bucketCount && forall i :: 0 <= i < m.bucketCount ==> PayloadFits(h, m, payloads, i)
  }

  method ReadBucket(h: Hash, m: Summary, payloads: seq<Payload>, i: nat) returns (r: Result<seq<int>, CodecError>)
    requires CountsEach(m) && i < |payloads| && i < m.bucketCount
    ensures r.Ok? <==> PayloadFits(h, m, payloads, i)
    ensures r.Ok? ==> r.value == BodyValues(payloads[i])
  {
    r := WriteBucketPayload(h, m.bucketCount, i, payloads[i].bytes);
    if r.Ok? && |r.value| != m.bucketCounts[i] { return Err(CountMismatch); }
  }

  method ReadBuckets(h: Hash, m: Summary, payloads: seq<Payload>) returns (r: Result<seq<Bucket>, CodecError>)
    requires CountsEach(m)
    ensures r.Ok? <==> PayloadsFit(h, m, payloads)
    ensures r.Ok? ==> |r.value| == m.bucketCount == |payloads|
    ensures r.Ok? ==> forall i :: 0 <= i < m.bucketCount ==> r.value[i].values == BodyValues(payloads[i])
  {
    var buckets: seq<Bucket> := [];
    for i := 0 to m.bucketCount
      invariant |buckets| == i <= |payloads|
      invariant forall k :: 0 <= k < i ==> PayloadFits(h, m, payloads, k)
      invariant forall k :: 0 <= k < i ==> buckets[k].values == BodyValues(payloads[k])
    {
      if i == |payloads| { return Err(Incomplete); }
      var written := ReadBucket(h, m, payloads, i);
      if written.Err? { return Err(written.error); }
      buckets := buckets + [Bucket(written.value)];
    }
    if |payloads| > m.bucketCount { return Err(Incomplete); }
    r := Ok(buckets);
  }

  lemma DescribedSummary(h: Hash, m: Summary, payloads: seq<Payload>, s: State)
    requires Describes(h, m, payloads, s)
    ensures SummaryValid(m) && |payloads| == s.bucketCount == m.bucketCount == |s.buckets|
  {
    assert m.positiveRows >= m.positiveGroups == Sum(s.bucketCounts) >= 0;
  }

  /** A described state's artifacts are read back as its buckets. */
  lemma DescribedReads(h: Hash, m: Summary, payloads: seq<Payload>, s: State)
    requires Describes(h, m, payloads, s)
    ensures SummaryValid(m) && PayloadsFit(h, m, payloads) && s.bucketCount == m.bucketCount == |s.buckets|
    ensures forall i :: 0 <= i < m.bucketCount ==> s.buckets[i].values == BodyValues(payloads[i])
  {
    DescribedSummary(h, m, payloads, s);
    forall i | 0 <= i < m.bucketCount
      ensures PayloadFits(h, m, payloads, i) && s.buckets[i].values == BodyValues(payloads[i])
    {
      assert Encodable(h, s.bucketCount, i, s.buckets[i].values);
      DecodeEncoded(h, s.bucketCount, i, s.buckets[i].values);
      assert payloads[i] == EncodeState(s)[i];
    }
  }

  lemma SameBuckets(a: seq<Bucket>, b: seq<Bucket>)
    requires |a| == |b| && forall i :: 0 <= i < |a| ==> a[i].values == b[i].values
    ensures a == b
  {
    assert forall i :: 0 <= i < |a| ==> a[i] == b[i];
  }

  /** Artifacts describe at most one state. */
  lemma DescribedOnce(h: Hash, m: Summary, payloads: seq<Payload>, s: State, t: State)
    requires Describes(h, m, payloads, s) && Describes(h, m, payloads, t)
    ensures s == t
  {
    DescribedReads(h, m, payloads, s);
    DescribedReads(h, m, payloads, t);
    SameBuckets(s.buckets, t.buckets);
  }

  function Rebuilt(m: Summary, buckets: seq<Bucket>): State
    requires SummaryValid(m)
  {
    State(m.bucketCount, buckets, Sizes(buckets), m.positiveRows, m.positiveGroups, m.witnessRows, m.first, m.last)
  }

  lemma FitIsEncoding(h: Hash, m: Summary, payloads: seq<Payload>, i: nat)
    requires i < |payloads| && i < |m.bucketCounts| && m.bucketCount > 0 && PayloadFits(h, m, payloads, i)
    ensures Encodable(h, m.bucketCount, i, BodyValues(payloads[i])) && |BodyValues(payloads[i])| == m.bucketCounts[i]
    ensures payloads[i] == Payload(EncodeBucket(m.bucketCount, i, BodyValues(payloads[i])))
  {
    EncodeDecoded(h, m.bucketCount, i, payloads[i].bytes);
  }

  lemma RebuiltSummary(m: Summary, buckets: seq<Bucket>)
    requires SummaryValid(m) && |buckets| == m.bucketCount
    requires forall i :: 0 <= i < m.bucketCount ==> |buckets[i].values| == m.bucketCounts[i]
    ensures StateSummary(Rebuilt(m, buckets)) == m
  {
    assert Sizes(buckets) == m.bucketCounts;
  }

  lemma RebuiltPayloads(m: Summary, payloads: seq<Payload>, buckets: seq<Bucket>)
    requires SummaryValid(m) && |buckets| == m.bucketCount == |payloads|
    requires forall i :: 0 <= i < m.bucketCount ==>
      payloads[i] == Payload(EncodeBucket(m.bucketCount, i, buckets[i].values))
    ensures EncodeState(Rebuilt(m, buckets)) == payloads
  {
  }

  lemma RebuiltDescribes(h: Hash, m: Summary, payloads: seq<Payload>, buckets: seq<Bucket>)
    requires SummaryValid(m) && PayloadsFit(h, m, payloads) && |buckets| == m.bucketCount
    requires forall i :: 0 <= i < m.bucketCount ==> buckets[i].values == BodyValues(payloads[i])
    requires Valid(h, Rebuilt(m, buckets))
    ensures Describes(h, m, payloads, Rebuilt(m, buckets))
  {
    forall i | 0 <= i < m.bucketCount
      ensures Encodable(h, m.bucketCount, i, buckets[i].values) && |buckets[i].values| == m.bucketCounts[i]
      ensures payloads[i] == Payload(EncodeBucket(m.bucketCount, i, buckets[i].values))
    {
      FitIsEncoding(h, m, payloads, i);
    }
    RebuiltSummary(m, buckets);
    RebuiltPayloads(m, payloads, buckets);
  }

  lemma CountsAreSizes(h: Hash, s: State)
    requires BucketsValid(h, s)
    ensures s.bucketCounts == Sizes(s.buckets)
  {
  }

  lemma DescribedIsRebuilt(h: Hash, m: Summary, payloads: seq<Payload>, buckets: seq<Bucket>, s: State)
    requires SummaryValid(m) && |buckets| == m.bucketCount == |payloads| && Describes(h, m, payloads, s)
    requires forall i :: 0 <= i < m.bucketCount ==> buckets[i].values == BodyValues(payloads[i])
    ensures s == Rebuilt(m, buckets)
  {
    DescribedReads(h, m, payloads, s);
    CountsAreSizes(h, s);
    SameBuckets(s.buckets, buckets);
  }

  /** Decodes a whole state, one artifact at a time. It succeeds exactly on the artifacts of
      a valid state that fits the format, and returns that state. */
  method DecodeState(h: Hash, m: Summary, payloads: seq<Payload>) returns (r: Result<State, CodecError>)
    ensures r.Ok? ==> Describes(h, m, payloads, r.value)
    ensures r.Err? ==> forall s :: !Describes(h, m, payloads, s)
  {
    if !SummaryValid(m) {
      forall s ensures !Describes(h, m, payloads, s) {
        if Describes(h, m, payloads, s) { DescribedReads(h, m, payloads, s); }
      }
      return Err(SummaryInvalid);
    }
    var buckets := ReadBuckets(h, m, payloads);
    if buckets.Err? {
      forall s ensures !Describes(h, m, payloads, s) {
        if Describes(h, m, payloads, s) { DescribedReads(h, m, payloads, s); }
      }
      return Err(buckets.error);
    }
    var state := Rebuilt(m, buckets.value);
    var ok := ValidateState(h, state);
    if !ok {
      forall s ensures !Describes(h, m, payloads, s) {
        if Describes(h, m, payloads, s) { DescribedIsRebuilt(h, m, payloads, buckets.value, s); }
      }
      return Err(StateInvalid);
    }
    RebuiltDescribes(h, m, payloads, buckets.value);
    r := Ok(state);
  }

  /** Decoding the artifacts of an encodable state gives an equal state. */
  method StateRoundTrip(h: Hash, s: State) returns (back: Result<State, CodecError>)
    requires StateEncodable(h, s)
    ensures back == Ok(s)
  {
    assert Describes(h, StateSummary(s), EncodeState(s), s);
    back := DecodeState(h, StateSummary(s), EncodeState(s));
    if back.Ok? { DescribedOnce(h, StateSummary(s), EncodeState(s), s, back.value); }
  }
}
