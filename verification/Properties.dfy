/**
  The MQTT 5 property-block codec: a Variable Byte Integer length, then records
  of one identifier byte and a value. The decoder takes the records in any
  order; the encoder writes them in ascending order of identifier.
 */
module PropertyCodec {
  import opened Wire
  import opened VarInt
  import opened PropertyFields
  import Topic

  datatype Record = Record(id: Byte, value: Value)

  // ---------- one record ----------

  predicate WritableText(s: Text) {
    0 !in s && |s| < 0x1_0000
  }

  predicate WritableAs(kind: Kind, v: Value) {
    && TypedAs(kind, v)
    && match v
       case Num(n) => kind.VarintList? ==> n <= MAX_VARIABLE_BYTE_INTEGER
       case Str(text) => WritableText(text)
       case Data(data) => |data| < 0x1_0000
       case Pair(key, value) => WritableText(key) && WritableText(value)
  }

  function ValueBytes(kind: Kind, v: Value): Bytes
    requires WritableAs(kind, v)
  {
    match kind
    case OneByte => [v.n]
    case TwoByte => U16Bytes(v.n)
    case FourByte => U32Bytes(v.n)
    case VarintList => VbiBytes(v.n)
    case TextField => Prefixed(v.text)
    case BinaryField => Prefixed(v.data)
    case PairList => Prefixed(v.key) + Prefixed(v.value)
  }

  /** A record that can stand on the wire. */
  predicate Writable(r: Record) {
    KindOf(r.id).Some? && WritableAs(KindOf(r.id).value, r.value)
  }

  function RecordBytes(r: Record): (b: Bytes)
    requires Writable(r)
    ensures b != []
  {
    [r.id] + ValueBytes(KindOf(r.id).value, r.value)
  }

  /** A property string: UTF-8 without U+0000. */
  function StringAt(block: Bytes, c: nat): Result<(Text, nat)> {
    var (text, c) :- TextAt(block, c);
    if 0 in text then Err(Utf8NullCharacter) else Ok((text, c))
  }

  function ValueAt(kind: Kind, block: Bytes, c: nat): (r: Result<(Value, nat)>)
    ensures r.Ok? ==> c < r.value.1 <= |block|
  {
    match kind
    case OneByte => var (n, c) :- U8At(block, c); Ok((Num(n), c))
    case TwoByte => var (n, c) :- U16At(block, c); Ok((Num(n), c))
    case FourByte => var (n, c) :- U32At(block, c); Ok((Num(n), c))
    case VarintList => var (n, c) :- VbiAt(block, c); Ok((Num(n), c))
    case TextField => var (text, c) :- StringAt(block, c); Ok((Str(text), c))
    case BinaryField => var (data, c) :- PrefixedAt(block, c); Ok((Data(data), c))
    case PairList =>
      var (key, c) :- StringAt(block, c);
      var (value, c) :- StringAt(block, c);
      Ok((Pair(key, value), c))
  }

  function RecordAt(block: Bytes, c: nat): (r: Result<(Record, nat)>)
    ensures r.Ok? ==> c < r.value.1 <= |block|
  {
    var (id, c) :- U8At(block, c);
    match KindOf(id)
    case None => Err(UnknownProperty(id))
    case Some(kind) => var (value, c) :- ValueAt(kind, block, c); Ok((Record(id, value), c))
  }

  lemma StringReads(block: Bytes, c: nat, s: Text, c': nat)
    ensures StringAt(block, c) == Ok((s, c'))
       <==> WritableText(s) && Holds(block, c, Prefixed(s)) && c' == c + 2 + |s|
  {
    TextReads(block, c, s, c');
  }

  lemma PairReads(block: Bytes, c: nat, key: Text, value: Text, c': nat)
    ensures ValueAt(PairList, block, c) == Ok((Pair(key, value), c'))
       <==> && WritableText(key) && WritableText(value)
            && Holds(block, c, Prefixed(key) + Prefixed(value)) && c' == c + 4 + |key| + |value|
  {
    hide StringAt, Prefixed;
    StringReads(block, c, key, c + 2 + |key|);
    StringReads(block, c + 2 + |key|, value, c');
    if WritableText(key) && WritableText(value) {
      HoldsConcat(block, c, Prefixed(key), Prefixed(value));
    }
    if StringAt(block, c).Ok? {
      var (s, d) := StringAt(block, c).value;
      StringReads(block, c, s, d);
      if StringAt(block, d).Ok? {
        var (t, e) := StringAt(block, d).value;
        StringReads(block, d, t, e);
      }
    }
  }

  /** Reading a value succeeds exactly on the bytes that writing it produces. */
  lemma ValueReads(kind: Kind, block: Bytes, c: nat, v: Value, c': nat)
    ensures ValueAt(kind, block, c) == Ok((v, c'))
       <==> WritableAs(kind, v) && Holds(block, c, ValueBytes(kind, v)) && c' == c + |ValueBytes(kind, v)|
  {
    hide VbiAt, StringAt, PrefixedAt, U32Bytes, VbiBytes, Prefixed;
    match v
    case Num(n) =>
      if n < 0x100 { U8Reads(block, c, n, c'); }
      if n < 0x1_0000 { U16Reads(block, c, n, c'); }
      if n < 0x1_0000_0000 { U32Reads(block, c, n, c'); }
      VbiReads(block, c, n, c');
      if VbiAt(block, c).Ok? {
        var (t, d) := VbiAt(block, c).value;
        VbiReads(block, c, t, d);
      }
    case Str(text) =>
      StringReads(block, c, text, c');
      if StringAt(block, c).Ok? {
        var (t, d) := StringAt(block, c).value;
        StringReads(block, c, t, d);
      }
    case Data(data) =>
      PrefixedReads(block, c, data, c');
      if PrefixedAt(block, c).Ok? {
        var (t, d) := PrefixedAt(block, c).value;
        PrefixedReads(block, c, t, d);
      }
    case Pair(key, value) => PairReads(block, c, key, value, c');
  }

  /** Reading a record succeeds exactly on the bytes that writing it produces. */
  lemma RecordReads(block: Bytes, c: nat, r: Record, c': nat)
    ensures RecordAt(block, c) == Ok((r, c'))
       <==> Writable(r) && Holds(block, c, RecordBytes(r)) && c' == c + |RecordBytes(r)|
  {
    U8Reads(block, c, r.id, c + 1);
    if KindOf(r.id).Some? {
      ValueReads(KindOf(r.id).value, block, c + 1, r.value, c');
      if Writable(r) {
        HoldsConcat(block, c, [r.id], ValueBytes(KindOf(r.id).value, r.value));
      }
    }
  }

  // ---------- a list of records ----------

  predicate AllWritable(rs: seq<Record>) {
    forall i | 0 <= i < |rs| :: Writable(rs[i])
  }

  function Flat(rs: seq<Record>): Bytes
    requires AllWritable(rs)
  {
    if rs == [] then [] else RecordBytes(rs[0]) + Flat(rs[1..])
  }

  /** No optional property occurs twice in `rs`, nor once if it is in `seen`. */
  predicate Fresh(rs: seq<Record>, seen: set<Byte>) {
    rs == [] ||
    (if Repeatable(rs[0].id) then Fresh(rs[1..], seen)
     else rs[0].id !in seen && Fresh(rs[1..], seen + {rs[0].id}))
  }

  function Store(p: Properties, r: Record): Properties
    requires Writable(r)
  {
    Put(p, r.id, r.value)
  }

  function PutAll(p: Properties, rs: seq<Record>): Properties
    requires AllWritable(rs)
    decreases |rs|
  {
    if rs == [] then p else PutAll(Store(p, rs[0]), rs[1..])
  }

  /** The values that `rs` gives to one identifier, in order. */
  function ValuesOf(rs: seq<Record>, id: Byte): seq<Value> {
    if rs == [] then []
    else (if rs[0].id == id then [rs[0].value] else []) + ValuesOf(rs[1..], id)
  }

  lemma GetStore(p: Properties, r: Record, id: Byte)
    requires Writable(r)
    ensures Get(Store(p, r), id) == if r.id != id then Get(p, id)
                                    else if Repeatable(id) then Get(p, id) + [r.value]
                                    else [r.value]
  {
    hide Get, Put;
    if r.id == id {
      GetPut(p, id, r.value);
    } else {
      GetPutOther(p, r.id, r.value, id);
    }
  }

  /** What collecting fresh records leaves in a field: what was there, then their values. */
  lemma {:induction false} GetPutAll(p: Properties, rs: seq<Record>, seen: set<Byte>, id: Byte)
    requires AllWritable(rs) && Fresh(rs, seen)
    requires Repeatable(id) || id in seen || Get(p, id) == []
    ensures Get(PutAll(p, rs), id) == Get(p, id) + ValuesOf(rs, id)
    decreases |rs|
  {
    hide Get, Store, Writable;
    if rs == [] {
      assert Get(p, id) + [] == Get(p, id);
    } else {
      var r, tail := rs[0], rs[1..];
      var p' := Store(p, r);
      var seen' := if Repeatable(r.id) then seen else seen + {r.id};
      GetStore(p, r, id);
      GetPutAll(p', tail, seen', id);
      var g, vs := Get(p, id), ValuesOf(tail, id);
      if r.id != id {
        assert [] + vs == vs;
      } else if Repeatable(id) {
        assert g + [r.value] + vs == g + ([r.value] + vs);
      } else {
        assert g == [] && g + ([r.value] + vs) == [r.value] + vs;
      }
    }
  }

  // ---------- the decoder's loop ----------

  /** `seen` holds the set bits of the source's 64-bit mask. */
  function CollectFrom(block: Bytes, c: nat, p: Properties, seen: set<Byte>): Result<Properties>
    decreases |block| - c
  {
    if c >= |block| then Ok(p)
    else
      var id := block[c];
      if !Repeatable(id) && id >= 64 then Err(UnknownProperty(id))
      else if !Repeatable(id) && id in seen then Err(DuplicateProperty(id))
      else
        var (r, c') :- RecordAt(block, c);
        RecordReads(block, c, r, c');
        CollectFrom(block, c', Store(p, r), if Repeatable(id) then seen else seen + {id})
  }

  /** The records that stand in `block` from `c` on, up to the first that does not parse. */
  ghost function RecordsFrom(block: Bytes, c: nat): (rs: seq<Record>)
    ensures AllWritable(rs)
    decreases |block| - c
  {
    match RecordAt(block, c)
    case Err(_) => []
    case Ok((r, c')) => RecordReads(block, c, r, c'); [r] + RecordsFrom(block, c')
  }

  predicate Spells(block: Bytes, c: nat, rs: seq<Record>) {
    AllWritable(rs) && Holds(block, c, Flat(rs)) && c + |Flat(rs)| == |block|
  }

  /** An accepted block is a list of fresh records, and the result is what they collect to. */
  lemma {:induction false} CollectSound(block: Bytes, c: nat, p: Properties, seen: set<Byte>)
    requires c <= |block| && CollectFrom(block, c, p, seen).Ok?
    ensures var rs := RecordsFrom(block, c);
            && Spells(block, c, rs) && Fresh(rs, seen)
            && CollectFrom(block, c, p, seen) == Ok(PutAll(p, rs))
    decreases |block| - c
  {
    hide ValueAt, WritableAs, ValueBytes, KindOf, Put;
    if c < |block| {
      var id := block[c];
      var (r, c') := RecordAt(block, c).value;
      RecordReads(block, c, r, c');
      var seen' := if Repeatable(id) then seen else seen + {id};
      CollectSound(block, c', Store(p, r), seen');
      var tail := RecordsFrom(block, c');
      assert ([r] + tail)[1..] == tail;
      HoldsConcat(block, c, RecordBytes(r), Flat(tail));
    }
  }

  /** Every list of fresh records is accepted. */
  lemma {:induction false} CollectComplete(block: Bytes, c: nat, p: Properties, seen: set<Byte>, rs: seq<Record>)
    requires Spells(block, c, rs) && Fresh(rs, seen)
    ensures CollectFrom(block, c, p, seen) == Ok(PutAll(p, rs))
    decreases |rs|
  {
    hide ValueAt, WritableAs, ValueBytes, KindOf, Put;
    if rs != [] {
      var r := rs[0];
      HoldsConcat(block, c, RecordBytes(r), Flat(rs[1..]));
      var c' := c + |RecordBytes(r)|;
      RecordReads(block, c, r, c');
      assert block[c] == block[c..c'][0] == r.id;
      CollectComplete(block, c', Store(p, r), if Repeatable(r.id) then seen else seen + {r.id}, rs[1..]);
    }
  }

  // ---------- whole blocks ----------

  predicate OverOne(flag: Option<Byte>) {
    flag.Some? && flag.value > 1
  }

  /** The first fault that `validate_values` reports. */
  function ValueFault(p: Properties): Option<Error> {
    if OverOne(p.payloadFormatIndicator) then Some(MalformedProperty(PAYLOAD_FORMAT_INDICATOR))
    else if OverOne(p.requestProblemInformation) then Some(MalformedProperty(REQUEST_PROBLEM_INFORMATION))
    else if OverOne(p.requestResponseInformation) then Some(MalformedProperty(REQUEST_RESPONSE_INFORMATION))
    else if OverOne(p.maximumQos) then Some(MalformedProperty(MAXIMUM_QOS))
    else if OverOne(p.retainAvailable) then Some(MalformedProperty(RETAIN_AVAILABLE))
    else if OverOne(p.wildcardSubscriptionAvailable) then Some(MalformedProperty(WILDCARD_SUBSCRIPTION_AVAILABLE))
    else if OverOne(p.subscriptionIdentifierAvailable) then Some(MalformedProperty(SUBSCRIPTION_IDENTIFIER_AVAILABLE))
    else if OverOne(p.sharedSubscriptionAvailable) then Some(MalformedProperty(SHARED_SUBSCRIPTION_AVAILABLE))
    else if p.receiveMaximum == Some(0) then Some(MalformedProperty(RECEIVE_MAXIMUM))
    else if p.topicAlias == Some(0) then Some(MalformedProperty(TOPIC_ALIAS))
    else if p.maximumPacketSize == Some(0) then Some(MalformedProperty(MAXIMUM_PACKET_SIZE))
    else if exists n | n in p.subscriptionIdentifiers :: n == 0 || n > MAX_VARIABLE_BYTE_INTEGER then
      Some(MalformedProperty(SUBSCRIPTION_IDENTIFIER))
    else if p.authenticationData.Some? && p.authenticationMethod.None? then Some(MalformedProperty(AUTHENTICATION_DATA))
    else if p.responseTopic.Some? then Topic.TopicFault(p.responseTopic.value)
    else None
  }

  /** What decoding one property block at `c` yields. */
  function PropertiesAt(body: Bytes, c: nat): (r: Result<(Properties, nat)>)
    ensures r.Ok? ==> c < r.value.1 <= |body|
  {
    var (length, start) :- VbiAt(body, c);
    var end := start + length;
    if end > |body| then Err(UnexpectedEof)
    else
      var p :- CollectFrom(body[start..end], 0, DEFAULT, {});
      match ValueFault(p)
      case Some(e) => Err(e)
      case None => Ok((p, end))
  }

  method Parse(body: Bytes, cursor: nat) returns (r: Result<(Properties, nat)>)
    ensures r == PropertiesAt(body, cursor)
  {
    hide RecordAt, Writable, RecordBytes, Holds, Store, ValueFault, VbiAt;
    var prefix :- ReadVbi(body, cursor);
    var (propertyLength, start) := prefix;
    var end := start + propertyLength;
    if end > |body| {
      return Err(UnexpectedEof);
    }
    var block := body[start..end];
    var c, p := 0, DEFAULT;
    var seen: set<Byte> := {};
    while c < |block|
      invariant c <= |block|
      invariant CollectFrom(block, 0, DEFAULT, {}) == CollectFrom(block, c, p, seen)
      decreases |block| - c
    {
      var id := block[c];
      if !Repeatable(id) {
        if id >= 64 {
          return Err(UnknownProperty(id));
        }
        if id in seen {
          return Err(DuplicateProperty(id));
        }
        seen := seen + {id};
      }
      var item :- RecordAt(block, c);
      var (record, next) := item;
      RecordReads(block, c, record, next);
      p, c := Store(p, record), next;
    }
    match ValueFault(p)
    case Some(e) => return Err(e);
    case None => return Ok((p, end));
  }

  // ---------- encoding ----------

  function TextFault(s: Text): Option<Error> {
    if 0 in s then Some(Utf8NullCharacter)
    else if |s| >= 0x1_0000 then Some(FieldTooLong(|s|))
    else None
  }

  /** The error that writing the record reports. */
  function WriteFault(r: Record): (e: Option<Error>)
    requires Typed(r.id, r.value)
    ensures e.None? <==> Writable(r)
  {
    match r.value
    case Num(n) =>
      if KindOf(r.id) == Some(VarintList) && n > MAX_VARIABLE_BYTE_INTEGER
      then Some(VariableByteIntegerOutOfRange(n)) else None
    case Str(text) => TextFault(text)
    case Data(data) => if |data| >= 0x1_0000 then Some(FieldTooLong(|data|)) else None
    case Pair(key, value) => if TextFault(key).Some? then TextFault(key) else TextFault(value)
  }

  function Tagged(id: Byte, values: seq<Value>): seq<Record> {
    if values == [] then [] else [Record(id, values[0])] + Tagged(id, values[1..])
  }

  /** The records of `p` for the given identifiers, in their order. */
  function RecordsFor(p: Properties, ids: seq<Byte>): seq<Record> {
    if ids == [] then [] else Tagged(ids[0], Get(p, ids[0])) + RecordsFor(p, ids[1..])
  }

  function RecordsOf(p: Properties): seq<Record> {
    RecordsFor(p, TABLE)
  }

  predicate AllTyped(rs: seq<Record>) {
    forall i | 0 <= i < |rs| :: Typed(rs[i].id, rs[i].value)
  }

  lemma {:induction false} TaggedTyped(id: Byte, values: seq<Value>)
    requires forall v | v in values :: Typed(id, v)
    ensures AllTyped(Tagged(id, values))
  {
    hide Typed;
    if values != [] {
      assert values[0] in values;
      TaggedTyped(id, values[1..]);
    }
  }

  lemma {:induction false} RecordsTyped(p: Properties, ids: seq<Byte>)
    ensures AllTyped(RecordsFor(p, ids))
  {
    hide Typed, Get;
    if ids != [] {
      GetTyped(p, ids[0]);
      TaggedTyped(ids[0], Get(p, ids[0]));
      RecordsTyped(p, ids[1..]);
    }
  }

  function EncodedRecord(r: Record): Result<Bytes>
    requires Typed(r.id, r.value)
  {
    match WriteFault(r)
    case Some(e) => Err(e)
    case None => Ok(RecordBytes(r))
  }

  /** The bytes of all records, or the error of the first that cannot be written. */
  function EncodedRecords(rs: seq<Record>): (r: Result<Bytes>)
    requires AllTyped(rs)
    ensures r.Ok? <==> AllWritable(rs)
    ensures r.Ok? ==> r.value == Flat(rs)
  {
    if rs == [] then Ok([])
    else
      var head :- EncodedRecord(rs[0]);
      var tail :- EncodedRecords(rs[1..]);
      Ok(head + tail)
  }

  /** What encoding a block yields. */
  function EncodedProperties(p: Properties): Result<Bytes> {
    match ValueFault(p)
    case Some(e) => Err(e)
    case None =>
      RecordsTyped(p, TABLE);
      var body :- EncodedRecords(RecordsOf(p));
      if |body| > MAX_VARIABLE_BYTE_INTEGER then Err(VariableByteIntegerOutOfRange(|body|))
      else Ok(VbiBytes(|body|) + body)
  }

  function Prepend(b: Bytes, r: Result<Bytes>): Result<Bytes> {
    match r
    case Ok(t) => Ok(b + t)
    case Err(e) => Err(e)
  }

  lemma {:induction false} EncodedConcat(a: seq<Record>, b: seq<Record>)
    requires AllTyped(a) && AllTyped(b)
    ensures AllTyped(a + b)
    ensures EncodedRecords(a + b) == if EncodedRecords(a).Err? then EncodedRecords(a)
                                     else Prepend(EncodedRecords(a).value, EncodedRecords(b))
  {
    hide Typed, EncodedRecord, Flat, AllWritable;
    if a == [] {
      assert a + b == b;
      assert EncodedRecords(b).Ok? ==> [] + EncodedRecords(b).value == EncodedRecords(b).value;
    } else {
      EncodedConcat(a[1..], b);
      assert (a + b)[1..] == a[1..] + b && (a + b)[0] == a[0];
      if EncodedRecords(a).Ok? && EncodedRecords(b).Ok? {
        var x, y, z := EncodedRecord(a[0]).value, EncodedRecords(a[1..]).value, EncodedRecords(b).value;
        assert x + (y + z) == x + y + z;
      }
    }
  }

  /** One field: nothing, one record, or a record per list element. */
  method WriteField(body: Bytes, id: Byte, values: seq<Value>) returns (r: Result<Bytes>)
    requires forall v | v in values :: Typed(id, v)
    ensures AllTyped(Tagged(id, values)) && r == Prepend(body, EncodedRecords(Tagged(id, values)))
  {
    hide Typed, EncodedRecord, Flat, AllWritable;
    TaggedTyped(id, values);
    var out := body;
    ghost var whole := Prepend(body, EncodedRecords(Tagged(id, values)));
    assert values[0..] == values;
    for j := 0 to |values|
      invariant AllTyped(Tagged(id, values[j..]))
      invariant whole == Prepend(out, EncodedRecords(Tagged(id, values[j..])))
    {
      ghost var pending := Tagged(id, values[j..]);
      assert values[j..][1..] == values[j + 1..];
      assert pending[0] == Record(id, values[j]) && pending[1..] == Tagged(id, values[j + 1..]);
      var bytes :- EncodedRecord(Record(id, values[j]));
      ghost var after := EncodedRecords(pending[1..]);
      assert after.Ok? ==> out + bytes + after.value == out + (bytes + after.value);
      out := out + bytes;
    }
    assert out + [] == out;
    return Ok(out);
  }

  /** The fields with the given identifiers, one after the other. */
  method EncodeFields(p: Properties, ids: seq<Byte>) returns (r: Result<Bytes>)
    ensures AllTyped(RecordsFor(p, ids)) && r == EncodedRecords(RecordsFor(p, ids))
  {
    hide Typed, Get, EncodedRecords, Flat, AllWritable;
    RecordsTyped(p, ids);
    var body: Bytes := [];
    ghost var whole := EncodedRecords(RecordsFor(p, ids));
    assert ids[0..] == ids;
    assert whole.Ok? ==> [] + whole.value == whole.value;
    for i := 0 to |ids|
      invariant AllTyped(RecordsFor(p, ids[i..]))
      invariant whole == Prepend(body, EncodedRecords(RecordsFor(p, ids[i..])))
    {
      var values := Get(p, ids[i]);
      ghost var rest := RecordsFor(p, ids[i + 1..]);
      assert ids[i..][1..] == ids[i + 1..];
      RecordsTyped(p, ids[i + 1..]);
      GetTyped(p, ids[i]);
      TaggedTyped(ids[i], values);
      EncodedConcat(Tagged(ids[i], values), rest);
      ghost var before, after := body, EncodedRecords(rest);
      body :- WriteField(body, ids[i], values);
      ghost var field := EncodedRecords(Tagged(ids[i], values)).value;
      assert after.Ok? ==> before + (field + after.value) == before + field + after.value;
    }
    EncodedNothing();
    assert RecordsFor(p, ids[|ids|..]) == [];
    assert body + [] == body;
    return Ok(body);
  }

  lemma EncodedNothing()
    ensures EncodedRecords([]) == Ok([])
  {
  }

  method EncodeValues(p: Properties) returns (r: Result<Bytes>)
    ensures AllTyped(RecordsOf(p)) && r == EncodedRecords(RecordsOf(p))
  {
    r := EncodeFields(p, TABLE);
  }

  method Encode(p: Properties, output: Bytes) returns (r: Result<Bytes>)
    ensures r == Prepend(output, EncodedProperties(p))
  {
    hide ValueFault, EncodedRecords, RecordsOf, AllTyped, AllWritable, Flat;
    if ValueFault(p).Some? {
      return Err(ValueFault(p).value);
    }
    var body :- EncodeValues(p);
    var prefixed :- WriteVbi(output, |body|);
    assert prefixed + body == output + (VbiBytes(|body|) + body);
    return Ok(prefixed + body);
  }
}
