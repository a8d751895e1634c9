/**
  The property block as section 2.2.2.2 of MQTT 5.0 tabulates it: which byte
  names which field, how each is spelled, and which values are allowed. The codec
  writes exactly these bytes and accepts exactly these values.
 */
module PropertyStandard {
  import opened Wire
  import opened VarInt
  import opened PropertyFields
  import opened PropertyCodec
  import opened Standard
  import PropertyOrder
  import Topic

  // ---------- how a field is spelled ----------

  function One(id: Byte, o: Option<Byte>): Bytes {
    if o.None? then [] else [id, o.value]
  }

  function Two(id: Byte, o: Option<U16>): Bytes {
    if o.None? then [] else [id] + Big16(o.value)
  }

  function Four(id: Byte, o: Option<U32>): Bytes {
    if o.None? then [] else [id] + Big32(o.value)
  }

  /** A string or binary field, if it fits. */
  function Spelt(s: Bytes): Bytes {
    if |s| <= 65_535 then Field(s) else []
  }

  function TextPiece(id: Byte, o: Option<Text>): Bytes {
    if o.None? then [] else [id] + Spelt(o.value)
  }

  function DataPiece(id: Byte, o: Option<Bytes>): Bytes {
    if o.None? then [] else [id] + Spelt(o.value)
  }

  function NumberPieces(s: seq<U32>): Bytes {
    if s == [] then [] else [0x0B] + (if s[0] <= 268_435_455 then Varint(s[0]) else []) + NumberPieces(s[1..])
  }

  function PairPieces(s: seq<(Text, Text)>): Bytes {
    if s == [] then [] else [0x26] + Spelt(s[0].0) + Spelt(s[0].1) + PairPieces(s[1..])
  }

  /** What one identifier stands for, and how it is spelled. */
  function Piece(p: Properties, id: Byte): Bytes {
    match id
    case 0x01 => One(id, p.payloadFormatIndicator)
    case 0x02 => Four(id, p.messageExpiryInterval)
    case 0x03 => TextPiece(id, p.contentType)
    case 0x08 => TextPiece(id, p.responseTopic)
    case 0x09 => DataPiece(id, p.correlationData)
    case 0x0B => NumberPieces(p.subscriptionIdentifiers)
    case 0x11 => Four(id, p.sessionExpiryInterval)
    case 0x12 => TextPiece(id, p.assignedClientIdentifier)
    case 0x13 => Two(id, p.serverKeepAlive)
    case 0x15 => TextPiece(id, p.authenticationMethod)
    case 0x16 => DataPiece(id, p.authenticationData)
    case 0x17 => One(id, p.requestProblemInformation)
    case 0x18 => Four(id, p.willDelayInterval)
    case 0x19 => One(id, p.requestResponseInformation)
    case 0x1A => TextPiece(id, p.responseInformation)
    case 0x1C => TextPiece(id, p.serverReference)
    case 0x1F => TextPiece(id, p.reasonString)
    case 0x21 => Two(id, p.receiveMaximum)
    case 0x22 => Two(id, p.topicAliasMaximum)
    case 0x23 => Two(id, p.topicAlias)
    case 0x24 => One(id, p.maximumQos)
    case 0x25 => One(id, p.retainAvailable)
    case 0x26 => PairPieces(p.userProperties)
    case 0x27 => Four(id, p.maximumPacketSize)
    case 0x28 => One(id, p.wildcardSubscriptionAvailable)
    case 0x29 => One(id, p.subscriptionIdentifierAvailable)
    case 0x2A => One(id, p.sharedSubscriptionAvailable)
    case _ => []
  }

  /** The identifiers in ascending order. */
  const ORDER: seq<Byte> := [
    0x01, 0x02, 0x03, 0x08, 0x09, 0x0B, 0x11, 0x12, 0x13, 0x15, 0x16, 0x17, 0x18, 0x19,
    0x1A, 0x1C, 0x1F, 0x21, 0x22, 0x23, 0x24, 0x25, 0x26, 0x27, 0x28, 0x29, 0x2A
  ]

  function Concat(p: Properties, ids: seq<Byte>): Bytes {
    if ids == [] then [] else Piece(p, ids[0]) + Concat(p, ids[1..])
  }

  /** The bytes of a block, without its length. */
  function Spelled(p: Properties): Bytes {
    Concat(p, ORDER)
  }

  predicate StringFits(s: Bytes) {
    |s| <= 65_535 && 0x00 !in s
  }

  predicate TextFits(o: Option<Text>) {
    o.Some? ==> StringFits(o.value)
  }

  predicate DataFits(o: Option<Bytes>) {
    o.Some? ==> |o.value| <= 65_535
  }

  predicate NumbersFit(s: seq<U32>) {
    forall i | 0 <= i < |s| :: s[i] <= 268_435_455
  }

  predicate PairsFit(s: seq<(Text, Text)>) {
    forall i | 0 <= i < |s| :: StringFits(s[i].0) && StringFits(s[i].1)
  }

  /** Every string, binary field and number in a list can be spelled. */
  predicate AllFit(p: Properties) {
    && TextFits(p.contentType) && TextFits(p.responseTopic) && DataFits(p.correlationData)
    && NumbersFit(p.subscriptionIdentifiers) && TextFits(p.assignedClientIdentifier)
    && TextFits(p.authenticationMethod) && DataFits(p.authenticationData) && TextFits(p.responseInformation)
    && TextFits(p.serverReference) && TextFits(p.reasonString) && PairsFit(p.userProperties)
  }

  predicate Fits(p: Properties, id: Byte) {
    match id
    case 0x03 => TextFits(p.contentType)
    case 0x08 => TextFits(p.responseTopic)
    case 0x09 => DataFits(p.correlationData)
    case 0x0B => NumbersFit(p.subscriptionIdentifiers)
    case 0x12 => TextFits(p.assignedClientIdentifier)
    case 0x15 => TextFits(p.authenticationMethod)
    case 0x16 => DataFits(p.authenticationData)
    case 0x1A => TextFits(p.responseInformation)
    case 0x1C => TextFits(p.serverReference)
    case 0x1F => TextFits(p.reasonString)
    case 0x26 => PairsFit(p.userProperties)
    case _ => true
  }

  // ---------- the codec's records are these pieces ----------

  lemma OneRecord(id: Byte, o: Option<Byte>)
    requires KindOf(id) == Some(OneByte)
    ensures AllWritable(Tagged(id, Nums(o))) && Flat(Tagged(id, Nums(o))) == One(id, o)
  {
  }

  lemma TwoRecord(id: Byte, o: Option<U16>)
    requires KindOf(id) == Some(TwoByte)
    ensures AllWritable(Tagged(id, Nums(o))) && Flat(Tagged(id, Nums(o))) == Two(id, o)
  {
    hide U16Bytes;
    if o.Some? {
      NumbersAreStandard(o.value, 0, []);
      OneFlat(Record(id, Num(o.value)));
    }
  }

  lemma FourRecord(id: Byte, o: Option<U32>)
    requires KindOf(id) == Some(FourByte)
    ensures AllWritable(Tagged(id, Nums(o))) && Flat(Tagged(id, Nums(o))) == Four(id, o)
  {
    hide U32Bytes;
    if o.Some? {
      NumbersAreStandard(0, o.value, []);
      OneFlat(Record(id, Num(o.value)));
    }
  }

  lemma OneFlat(r: Record)
    ensures Tagged(r.id, [r.value]) == [r]
    ensures Writable(r) ==> AllWritable([r]) && Flat([r]) == RecordBytes(r)
    ensures AllWritable([r]) ==> Writable(r)
  {
    assert [r][0] == r;
    if Writable(r) {
      assert RecordBytes(r) + [] == RecordBytes(r);
    }
  }

  lemma TextRecord(id: Byte, o: Option<Text>)
    requires KindOf(id) == Some(TextField)
    ensures AllWritable(Tagged(id, Texts(o))) <==> TextFits(o)
    ensures TextFits(o) ==> Flat(Tagged(id, Texts(o))) == TextPiece(id, o)
  {
    hide Prefixed;
    if o.Some? {
      NumbersAreStandard(0, 0, o.value);
      OneFlat(Record(id, Str(o.value)));
    }
  }

  lemma DataRecord(id: Byte, o: Option<Bytes>)
    requires KindOf(id) == Some(BinaryField)
    ensures AllWritable(Tagged(id, Datas(o))) <==> DataFits(o)
    ensures DataFits(o) ==> Flat(Tagged(id, Datas(o))) == DataPiece(id, o)
  {
    hide Prefixed;
    if o.Some? {
      NumbersAreStandard(0, 0, o.value);
      OneFlat(Record(id, Data(o.value)));
    }
  }

  lemma {:induction false} NumberRecords(s: seq<U32>)
    ensures AllWritable(Tagged(0x0B, NumList(s))) <==> NumbersFit(s)
    ensures NumbersFit(s) ==> Flat(Tagged(0x0B, NumList(s))) == NumberPieces(s)
  {
    hide VbiBytes, Varint;
    if s != [] {
      var r := Record(0x0B, Num(s[0]));
      var rs := Tagged(0x0B, NumList(s[1..]));
      NumberRecords(s[1..]);
      assert NumList(s)[1..] == NumList(s[1..]);
      assert Tagged(0x0B, NumList(s)) == [r] + rs;
      ConsWritable(r, rs);
      assert NumbersFit(s) <==> s[0] <= 268_435_455 && NumbersFit(s[1..]) by { assert s == [s[0]] + s[1..]; }
      if NumbersFit(s) {
        VarintIsStandard(s[0]);
      }
    }
  }

  lemma ConsWritable(r: Record, rs: seq<Record>)
    ensures AllWritable([r] + rs) <==> Writable(r) && AllWritable(rs)
    ensures AllWritable([r] + rs) ==> Flat([r] + rs) == RecordBytes(r) + Flat(rs)
  {
    hide Writable, RecordBytes;
    assert ([r] + rs)[1..] == rs;
    if AllWritable([r] + rs) {
      assert forall i | 0 <= i < |rs| :: rs[i] == ([r] + rs)[i + 1];
      assert ([r] + rs)[0] == r;
    }
  }

  lemma {:induction false} PairRecords(s: seq<(Text, Text)>)
    ensures AllWritable(Tagged(0x26, PairListed(s))) <==> PairsFit(s)
    ensures PairsFit(s) ==> Flat(Tagged(0x26, PairListed(s))) == PairPieces(s)
  {
    hide Prefixed, Writable, RecordBytes, Spelt, StringFits;
    if s != [] {
      var r := Record(0x26, Pair(s[0].0, s[0].1));
      var rs := Tagged(0x26, PairListed(s[1..]));
      PairRecords(s[1..]);
      assert PairListed(s)[1..] == PairListed(s[1..]);
      assert Tagged(0x26, PairListed(s)) == [r] + rs;
      ConsWritable(r, rs);
      assert PairsFit(s) <==> StringFits(s[0].0) && StringFits(s[0].1) && PairsFit(s[1..]) by { assert s == [s[0]] + s[1..]; }
      PairBytes(s[0].0, s[0].1);
    }
  }

  lemma PairBytes(key: Text, value: Text)
    ensures var r := Record(0x26, Pair(key, value));
            && (Writable(r) <==> StringFits(key) && StringFits(value))
            && (Writable(r) ==> RecordBytes(r) == [0x26] + Spelt(key) + Spelt(value))
  {
    hide Prefixed;
    NumbersAreStandard(0, 0, key);
    NumbersAreStandard(0, 0, value);
    if StringFits(key) && StringFits(value) {
      assert [0x26] + (Field(key) + Field(value)) == [0x26] + Field(key) + Field(value);
    }
  }

  predicate PieceIs(p: Properties, id: Byte) {
    var rs := Tagged(id, Get(p, id));
    (AllWritable(rs) <==> Fits(p, id)) && (Fits(p, id) ==> Flat(rs) == Piece(p, id))
  }

  lemma FirstPieces(p: Properties, id: Byte)
    requires id in {0x01, 0x02, 0x03, 0x08}
    ensures PieceIs(p, id)
  {
    hide AllWritable, Flat, Tagged, One, Two, Four, TextPiece, DataPiece, NumberPieces, PairPieces, TextFits, DataFits,
         NumbersFit, PairsFit, Nums, Texts, Datas, NumList, PairListed;
    match id
    case 0x01 => OneRecord(0x01, p.payloadFormatIndicator);
    case 0x02 => FourRecord(0x02, p.messageExpiryInterval);
    case 0x03 => TextRecord(0x03, p.contentType);
    case 0x08 => TextRecord(0x08, p.responseTopic);
  }

  lemma SecondPieces(p: Properties, id: Byte)
    requires id in {0x09, 0x0B, 0x11, 0x12}
    ensures PieceIs(p, id)
  {
    hide AllWritable, Flat, Tagged, One, Two, Four, TextPiece, DataPiece, NumberPieces, PairPieces, TextFits, DataFits,
         NumbersFit, PairsFit, Nums, Texts, Datas, NumList, PairListed;
    match id
    case 0x09 => DataRecord(0x09, p.correlationData);
    case 0x0B => NumberRecords(p.subscriptionIdentifiers);
    case 0x11 => FourRecord(0x11, p.sessionExpiryInterval);
    case 0x12 => TextRecord(0x12, p.assignedClientIdentifier);
  }

  lemma ThirdPieces(p: Properties, id: Byte)
    requires id in {0x13, 0x15, 0x16, 0x17}
    ensures PieceIs(p, id)
  {
    hide AllWritable, Flat, Tagged, One, Two, Four, TextPiece, DataPiece, NumberPieces, PairPieces, TextFits, DataFits,
         NumbersFit, PairsFit, Nums, Texts, Datas, NumList, PairListed;
    match id
    case 0x13 => TwoRecord(0x13, p.serverKeepAlive);
    case 0x15 => TextRecord(0x15, p.authenticationMethod);
    case 0x16 => DataRecord(0x16, p.authenticationData);
    case 0x17 => OneRecord(0x17, p.requestProblemInformation);
  }

  lemma FourthPieces(p: Properties, id: Byte)
    requires id in {0x18, 0x19, 0x1A, 0x1C}
    ensures PieceIs(p, id)
  {
    hide AllWritable, Flat, Tagged, One, Two, Four, TextPiece, DataPiece, NumberPieces, PairPieces, TextFits, DataFits,
         NumbersFit, PairsFit, Nums, Texts, Datas, NumList, PairListed;
    match id
    case 0x18 => FourRecord(0x18, p.willDelayInterval);
    case 0x19 => OneRecord(0x19, p.requestResponseInformation);
    case 0x1A => TextRecord(0x1A, p.responseInformation);
    case 0x1C => TextRecord(0x1C, p.serverReference);
  }

  lemma FifthPieces(p: Properties, id: Byte)
    requires id in {0x1F, 0x21, 0x22, 0x23}
    ensures PieceIs(p, id)
  {
    hide AllWritable, Flat, Tagged, One, Two, Four, TextPiece, DataPiece, NumberPieces, PairPieces, TextFits, DataFits,
         NumbersFit, PairsFit, Nums, Texts, Datas, NumList, PairListed;
    match id
    case 0x1F => TextRecord(0x1F, p.reasonString);
    case 0x21 => TwoRecord(0x21, p.receiveMaximum);
    case 0x22 => TwoRecord(0x22, p.topicAliasMaximum);
    case 0x23 => TwoRecord(0x23, p.topicAlias);
  }

  lemma SixthPieces(p: Properties, id: Byte)
    requires id in {0x24, 0x25, 0x26, 0x27}
    ensures PieceIs(p, id)
  {
    hide AllWritable, Flat, Tagged, One, Two, Four, TextPiece, DataPiece, NumberPieces, PairPieces, TextFits, DataFits,
         NumbersFit, PairsFit, Nums, Texts, Datas, NumList, PairListed;
    match id
    case 0x24 => OneRecord(0x24, p.maximumQos);
    case 0x25 => OneRecord(0x25, p.retainAvailable);
    case 0x26 => PairRecords(p.userProperties);
    case 0x27 => FourRecord(0x27, p.maximumPacketSize);
  }

  lemma SeventhPieces(p: Properties, id: Byte)
    requires id in {0x28, 0x29, 0x2A}
    ensures PieceIs(p, id)
  {
    hide AllWritable, Flat, Tagged, One, Two, Four, TextPiece, DataPiece, NumberPieces, PairPieces, TextFits, DataFits,
         NumbersFit, PairsFit, Nums, Texts, Datas, NumList, PairListed;
    match id
    case 0x28 => OneRecord(0x28, p.wildcardSubscriptionAvailable);
    case 0x29 => OneRecord(0x29, p.subscriptionIdentifierAvailable);
    case 0x2A => OneRecord(0x2A, p.sharedSubscriptionAvailable);
  }

  lemma PiecesAre(p: Properties, id: Byte)
    requires id in ORDER
    ensures PieceIs(p, id)
  {
    hide PieceIs;
    if id <= 0x08 {
      FirstPieces(p, id);
    } else if id <= 0x12 {
      SecondPieces(p, id);
    } else if id <= 0x17 {
      ThirdPieces(p, id);
    } else if id <= 0x1C {
      FourthPieces(p, id);
    } else if id <= 0x23 {
      FifthPieces(p, id);
    } else if id <= 0x27 {
      SixthPieces(p, id);
    } else {
      SeventhPieces(p, id);
    }
  }

  lemma {:induction false} SpelledFrom(p: Properties, ids: seq<Byte>)
    requires forall id | id in ids :: id in ORDER
    ensures AllWritable(RecordsFor(p, ids)) <==> forall id | id in ids :: Fits(p, id)
    ensures AllWritable(RecordsFor(p, ids)) ==> Flat(RecordsFor(p, ids)) == Concat(p, ids)
  {
    hide AllWritable, Flat, Tagged, Get, Piece, Fits;
    if ids == [] {
      NothingWritten();
    } else {
      var id, rest := ids[0], ids[1..];
      assert id in ids && ids == [id] + rest;
      SpelledFrom(p, rest);
      PiecesAre(p, id);
      FlatAppend(Tagged(id, Get(p, id)), RecordsFor(p, rest));
    }
  }

  lemma FitsAll(p: Properties)
    ensures (forall id | id in ORDER :: Fits(p, id)) <==> AllFit(p)
  {
    hide Fits, AllFit;
    if forall id | id in ORDER :: Fits(p, id) {
      VariableOrdered();
      FitsEach(p);
    }
    if AllFit(p) {
      forall id | id in ORDER
        ensures Fits(p, id)
      {
        FitsOne(p, id);
      }
    }
  }

  /** The properties of variable length are in the list. */
  lemma VariableOrdered()
    ensures 0x03 in ORDER && 0x08 in ORDER && 0x09 in ORDER && 0x0B in ORDER && 0x12 in ORDER && 0x15 in ORDER
    ensures 0x16 in ORDER && 0x1A in ORDER && 0x1C in ORDER && 0x1F in ORDER && 0x26 in ORDER
  {
    assert ORDER[2] == 0x03 && ORDER[3] == 0x08 && ORDER[4] == 0x09 && ORDER[5] == 0x0B && ORDER[7] == 0x12;
    assert ORDER[9] == 0x15 && ORDER[10] == 0x16 && ORDER[14] == 0x1A && ORDER[15] == 0x1C && ORDER[16] == 0x1F;
    assert ORDER[22] == 0x26;
  }

  lemma FitsEach(p: Properties)
    requires Fits(p, 0x03) && Fits(p, 0x08) && Fits(p, 0x09) && Fits(p, 0x0B) && Fits(p, 0x12) && Fits(p, 0x15)
    requires Fits(p, 0x16) && Fits(p, 0x1A) && Fits(p, 0x1C) && Fits(p, 0x1F) && Fits(p, 0x26)
    ensures AllFit(p)
  {
    hide TextFits, DataFits, NumbersFit, PairsFit;
  }

  lemma FitsOne(p: Properties, id: Byte)
    requires AllFit(p)
    ensures Fits(p, id)
  {
    hide TextFits, DataFits, NumbersFit, PairsFit;
  }

  lemma NothingWritten()
    ensures AllWritable([]) && Flat([]) == []
  {
  }

  lemma {:induction false} FlatAppend(a: seq<Record>, b: seq<Record>)
    ensures AllWritable(a + b) <==> AllWritable(a) && AllWritable(b)
    ensures AllWritable(a + b) ==> Flat(a + b) == Flat(a) + Flat(b)
    decreases |a|
  {
    hide Writable, RecordBytes;
    if a == [] {
      assert a + b == b;
      if AllWritable(b) {
        assert [] + Flat(b) == Flat(b);
      }
    } else {
      var t := a[1..];
      FlatAppend(t, b);
      assert a == [a[0]] + t && a + b == [a[0]] + (t + b);
      ConsWritable(a[0], t);
      ConsWritable(a[0], t + b);
      if AllWritable(a + b) {
        assert RecordBytes(a[0]) + (Flat(t) + Flat(b)) == RecordBytes(a[0]) + Flat(t) + Flat(b);
      }
    }
  }

  // ---------- which values are allowed ----------

  predicate NotFlag(o: Option<Byte>) {
    o.Some? && o.value != 0 && o.value != 1
  }

  /** Each identifier with what is wrong with its value, in the order in which they are looked at. */
  function Checks(p: Properties): (r: seq<(Byte, bool)>)
    ensures |r| == 13
  {
    [ (0x01, NotFlag(p.payloadFormatIndicator)),
      (0x17, NotFlag(p.requestProblemInformation)),
      (0x19, NotFlag(p.requestResponseInformation)),
      (0x24, NotFlag(p.maximumQos)),
      (0x25, NotFlag(p.retainAvailable)),
      (0x28, NotFlag(p.wildcardSubscriptionAvailable)),
      (0x29, NotFlag(p.subscriptionIdentifierAvailable)),
      (0x2A, NotFlag(p.sharedSubscriptionAvailable)),
      (0x21, p.receiveMaximum == Some(0)),
      (0x23, p.topicAlias == Some(0)),
      (0x27, p.maximumPacketSize == Some(0)),
      (0x0B, BadNumber(p.subscriptionIdentifiers)),
      (0x16, p.authenticationData.Some? && p.authenticationMethod.None?) ]
  }

  /** A response topic has 1 to 65535 bytes and no wildcard. */
  predicate TopicOk(o: Option<Text>) {
    o.Some? ==> 1 <= |o.value| <= 65_535 && 0x2B !in o.value && 0x23 !in o.value
  }

  predicate ValuesOk(p: Properties) {
    (forall i | 0 <= i < |Checks(p)| :: !Checks(p)[i].1) && TopicOk(p.responseTopic)
  }

  /** Validation passes exactly on the allowed values, and otherwise names the first that is not allowed. */
  lemma FaultIsFirst(p: Properties)
    ensures ValueFault(p).None? <==> ValuesOk(p)
    ensures forall j | 0 <= j < |Checks(p)| && Checks(p)[j].1 && (forall i | 0 <= i < j :: !Checks(p)[i].1) ::
              ValueFault(p) == Some(MalformedProperty(Checks(p)[j].0))
    ensures (forall i | 0 <= i < |Checks(p)| :: !Checks(p)[i].1) && !TopicOk(p.responseTopic) ==>
              ValueFault(p)
              == Some(if p.responseTopic.value == [] then EmptyTopic
                      else if |p.responseTopic.value| > 65_535 then TopicTooLong else WildcardInPublishTopic)
  {
    hide ValueFault, Checks, TopicOk;
    if forall i | 0 <= i < 13 :: !Checks(p)[i].1 {
      NoFault(p);
    } else {
      var j := FirstBad(p, 0);
      FaultAt(p, j);
    }
    forall j | 0 <= j < 13 && Checks(p)[j].1 && (forall i | 0 <= i < j :: !Checks(p)[i].1)
      ensures ValueFault(p) == Some(MalformedProperty(Checks(p)[j].0))
    {
      FaultAt(p, j);
    }
  }

  lemma FirstBad(p: Properties, n: nat) returns (j: nat)
    requires n <= 13 && forall i | 0 <= i < n :: !Checks(p)[i].1
    requires exists i | 0 <= i < 13 :: Checks(p)[i].1
    ensures j < 13 && Checks(p)[j].1 && forall i | 0 <= i < j :: !Checks(p)[i].1
    decreases 13 - n
  {
    hide Checks;
    if Checks(p)[n].1 {
      j := n;
    } else {
      j := FirstBad(p, n + 1);
    }
  }

  lemma ChecksAre(p: Properties)
    ensures var cs := Checks(p);
            && cs[0].1 == OverOne(p.payloadFormatIndicator) && cs[1].1 == OverOne(p.requestProblemInformation)
            && cs[2].1 == OverOne(p.requestResponseInformation) && cs[3].1 == OverOne(p.maximumQos)
            && cs[4].1 == OverOne(p.retainAvailable) && cs[5].1 == OverOne(p.wildcardSubscriptionAvailable)
            && cs[6].1 == OverOne(p.subscriptionIdentifierAvailable) && cs[7].1 == OverOne(p.sharedSubscriptionAvailable)
            && cs[8].1 == (p.receiveMaximum == Some(0)) && cs[9].1 == (p.topicAlias == Some(0))
            && cs[10].1 == (p.maximumPacketSize == Some(0))
            && cs[11].1 == (exists n | n in p.subscriptionIdentifiers :: n == 0 || n > MAX_VARIABLE_BYTE_INTEGER)
            && cs[12].1 == (p.authenticationData.Some? && p.authenticationMethod.None?)
  {
    hide BadNumber, NotFlag;
    FlagsAre();
    BadNumbers(p.subscriptionIdentifiers);
  }

  lemma NoFault(p: Properties)
    requires forall i | 0 <= i < 13 :: !Checks(p)[i].1
    ensures ValueFault(p).None? <==> TopicOk(p.responseTopic)
    ensures !TopicOk(p.responseTopic) ==>
              ValueFault(p)
              == Some(if p.responseTopic.value == [] then EmptyTopic
                      else if |p.responseTopic.value| > 65_535 then TopicTooLong else WildcardInPublishTopic)
  {
    hide Checks, OverOne, TopicOk, Topic.TopicFault;
    ChecksAre(p);
    TopicIs(p.responseTopic);
  }

  lemma FaultAt(p: Properties, j: nat)
    requires j < 13 && Checks(p)[j].1 && forall i | 0 <= i < j :: !Checks(p)[i].1
    ensures ValueFault(p) == Some(MalformedProperty(Checks(p)[j].0))
  {
    hide Checks, OverOne, Topic.TopicFault;
    ChecksAre(p);
    CheckIds(p);
  }

  lemma CheckIds(p: Properties)
    ensures var cs := Checks(p);
            && cs[0].0 == 0x01 && cs[1].0 == 0x17 && cs[2].0 == 0x19 && cs[3].0 == 0x24 && cs[4].0 == 0x25
            && cs[5].0 == 0x28 && cs[6].0 == 0x29 && cs[7].0 == 0x2A && cs[8].0 == 0x21 && cs[9].0 == 0x23
            && cs[10].0 == 0x27 && cs[11].0 == 0x0B && cs[12].0 == 0x16
  {
    hide BadNumber, NotFlag;
  }

  predicate BadNumber(s: seq<U32>) {
    exists i | 0 <= i < |s| :: !(1 <= s[i] <= 268_435_455)
  }

  lemma BadNumbers(s: seq<U32>)
    ensures (exists n | n in s :: n == 0 || n > MAX_VARIABLE_BYTE_INTEGER) <==> BadNumber(s)
  {
    if n :| n in s && (n == 0 || n > MAX_VARIABLE_BYTE_INTEGER) {
      var i :| 0 <= i < |s| && s[i] == n;
    }
    if BadNumber(s) {
      var i :| 0 <= i < |s| && !(1 <= s[i] <= 268_435_455);
      assert s[i] in s;
    }
  }

  lemma FlagsAre()
    ensures forall o: Option<Byte> :: NotFlag(o) <==> OverOne(o)
  {
  }

  lemma TopicIs(o: Option<Text>)
    ensures o.None? ==> TopicOk(o)
    ensures o.Some? ==> (Topic.TopicFault(o.value).None? <==> TopicOk(o))
    ensures o.Some? && !TopicOk(o) ==>
              Topic.TopicFault(o.value) == Some(if o.value == [] then EmptyTopic
                                                else if |o.value| > 65_535 then TopicTooLong else WildcardInPublishTopic)
  {
    hide Topic.Split;
    if o.Some? {
      Topic.TopicFaultByBytes(o.value);
    }
  }

  /**
    What encoding writes, exactly: it succeeds if and only if the values are
    allowed, every field can be spelled and the whole is short enough, and then
    writes the length and the pieces.
   */
  lemma EncodesExactly(p: Properties)
    ensures EncodedProperties(p).Ok? <==> ValuesOk(p) && AllFit(p) && |Spelled(p)| <= 268_435_455
    ensures EncodedProperties(p).Ok? ==> EncodedProperties(p).value == Varint(|Spelled(p)|) + Spelled(p)
    ensures !ValuesOk(p) ==> ValueFault(p).Some? && EncodedProperties(p) == Err(ValueFault(p).value)
  {
    hide ValueFault, ValuesOk, RecordsFor, Concat, Fits, AllFit, Varint, VbiBytes, AllWritable, Flat;
    FaultIsFirst(p);
    assert TABLE == ORDER;
    SpelledFrom(p, ORDER);
    FitsAll(p);
    RecordsTyped(p, TABLE);
    if |Spelled(p)| <= 268_435_455 {
      VarintIsStandard(|Spelled(p)|);
    }
  }

  /** No identifier occurs twice but 0x0B and 0x26. */
  predicate NoneTwice(rs: seq<Record>) {
    forall i, j | 0 <= i < j < |rs| && rs[i].id == rs[j].id :: rs[i].id == 0x0B || rs[i].id == 0x26
  }

  lemma {:induction false} FreshIs(rs: seq<Record>, seen: set<Byte>)
    ensures Fresh(rs, seen) <==>
              NoneTwice(rs) && forall i | 0 <= i < |rs| :: rs[i].id in seen ==> rs[i].id == 0x0B || rs[i].id == 0x26
    decreases |rs|
  {
    if rs != [] {
      var t := rs[1..];
      FreshIs(t, if Repeatable(rs[0].id) then seen else seen + {rs[0].id});
      assert forall i | 0 < i < |rs| :: rs[i] == t[i - 1];
      if Fresh(rs, seen) {
        forall i, j | 0 <= i < j < |rs| && rs[i].id == rs[j].id
          ensures rs[i].id == 0x0B || rs[i].id == 0x26
        {
          assert rs[j] == t[j - 1];
          if i > 0 {
            assert rs[i] == t[i - 1];
          }
        }
      }
      if NoneTwice(rs) {
        forall i, j | 0 <= i < j < |t| && t[i].id == t[j].id
          ensures t[i].id == 0x0B || t[i].id == 0x26
        {
          assert t[i] == rs[i + 1] && t[j] == rs[j + 1];
        }
        assert forall i | 0 <= i < |t| :: t[i] == rs[i + 1];
      }
    }
  }

  /**
    What decoding accepts, exactly: a length and records, none of them twice that
    may not be, whose values together are allowed; and it returns what they say.
   */
  lemma AcceptsExactly(body: Bytes, c: nat, p: Properties, end: nat)
    ensures PropertiesAt(body, c) == Ok((p, end)) <==> exists rs :: AcceptedAs(body, c, p, end, rs)
  {
    hide PropertiesAt, PutAll, Flat, AllWritable, ValuesOk, Varint, NoneTwice, PropertyOrder.Acceptable, PropertyOrder.Framed;
    if PropertiesAt(body, c) == Ok((p, end)) {
      PropertyOrder.BlockSound(body, c);
      var rs := PropertyOrder.BlockRecords(body, c);
      AcceptableIs(rs);
      assert AcceptedAs(body, c, p, end, rs);
    }
    if rs :| AcceptedAs(body, c, p, end, rs) {
      AcceptableIs(rs);
      PropertyOrder.BlockComplete(body, c, rs);
    }
  }

  lemma AcceptableIs(rs: seq<Record>)
    requires AllWritable(rs)
    ensures PropertyOrder.Acceptable(rs) <==>
              NoneTwice(rs) && ValuesOk(PutAll(DEFAULT, rs)) && |Flat(rs)| <= 268_435_455
    ensures |Flat(rs)| <= 268_435_455 ==> PropertyOrder.Framed(rs) == Varint(|Flat(rs)|) + Flat(rs)
  {
    hide PutAll, Flat, AllWritable, Fresh, ValueFault, ValuesOk, Varint, VbiBytes, NoneTwice;
    FaultIsFirst(PutAll(DEFAULT, rs));
    FreshIs(rs, {});
    if |Flat(rs)| <= 268_435_455 {
      VarintIsStandard(|Flat(rs)|);
    }
  }

  ghost predicate AcceptedAs(body: Bytes, c: nat, p: Properties, end: nat, rs: seq<Record>) {
    && AllWritable(rs) && NoneTwice(rs) && p == PutAll(DEFAULT, rs) && ValuesOk(p)
    && |Flat(rs)| <= 268_435_455
    && Holds(body, c, Varint(|Flat(rs)|) + Flat(rs)) && end == c + |Varint(|Flat(rs)|)| + |Flat(rs)|
  }

  // ---------- what is rejected ----------

  function SeenAfter(seen: set<Byte>, rs: seq<Record>): set<Byte>
    decreases |rs|
  {
    if rs == [] then seen else SeenAfter(if Repeatable(rs[0].id) then seen else seen + {rs[0].id}, rs[1..])
  }

  lemma {:induction false} CollectThrough(block: Bytes, c: nat, p: Properties, seen: set<Byte>, rs: seq<Record>)
    requires AllWritable(rs) && Fresh(rs, seen) && Holds(block, c, Flat(rs))
    ensures CollectFrom(block, c, p, seen) == CollectFrom(block, c + |Flat(rs)|, PutAll(p, rs), SeenAfter(seen, rs))
    decreases |rs|
  {
    hide ValueAt, WritableAs, ValueBytes, KindOf, Put;
    if rs != [] {
      var r := rs[0];
      HoldsConcat(block, c, RecordBytes(r), Flat(rs[1..]));
      var d := c + |RecordBytes(r)|;
      RecordReads(block, c, r, d);
      assert block[c] == block[c..d][0] == r.id;
      CollectThrough(block, d, Store(p, r), if Repeatable(r.id) then seen else seen + {r.id}, rs[1..]);
    }
  }

  lemma {:induction false} SeenIs(seen: set<Byte>, rs: seq<Record>, id: Byte)
    ensures id in SeenAfter(seen, rs) <==>
              id in seen || (id != 0x0B && id != 0x26 && exists i | 0 <= i < |rs| :: rs[i].id == id)
    decreases |rs|
  {
    if rs != [] {
      var t := rs[1..];
      SeenIs(if Repeatable(rs[0].id) then seen else seen + {rs[0].id}, t, id);
      assert rs == [rs[0]] + t;
    }
  }

  lemma KindsAreOrdered(id: Byte)
    ensures KindOf(id).Some? <==> id in ORDER
  {
    PropertyOrder.TableKinds(id);
  }

  /**
    After records that are in order, a byte that names no property is reported as
    unknown, and one that names a property already there as a duplicate, unless it
    is 0x0B or 0x26.
   */
  lemma RejectsExactly(block: Bytes, rs: seq<Record>)
    requires AllWritable(rs) && NoneTwice(rs) && Holds(block, 0, Flat(rs)) && |Flat(rs)| < |block|
    ensures var id := block[|Flat(rs)|];
            && (id !in ORDER ==> CollectFrom(block, 0, DEFAULT, {}) == Err(UnknownProperty(id)))
            && (id != 0x0B && id != 0x26 && (exists i | 0 <= i < |rs| :: rs[i].id == id) ==>
                  CollectFrom(block, 0, DEFAULT, {}) == Err(DuplicateProperty(id)))
  {
    hide Flat, AllWritable, Fresh, PutAll, SeenAfter, NoneTwice, ValueAt, KindOf;
    FreshIs(rs, {});
    CollectThrough(block, 0, DEFAULT, {}, rs);
    var id := block[|Flat(rs)|];
    SeenIs({}, rs, id);
    KindsAreOrdered(id);
    if i :| 0 <= i < |rs| && rs[i].id == id {
      WrittenIsKnown(rs, i);
    }
  }

  lemma WrittenIsKnown(rs: seq<Record>, i: nat)
    requires AllWritable(rs) && i < |rs|
    ensures rs[i].id in ORDER && rs[i].id < 64
  {
    KindsAreOrdered(rs[i].id);
  }
}
