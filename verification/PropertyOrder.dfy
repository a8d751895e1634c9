/**
  What the property codec preserves. Encoding is undone by decoding wherever the
  block stands; decoding looks at nothing outside the block; and decoding
  followed by encoding is the stable sort of the records by identifier.
 */
module PropertyOrder {
  import opened Wire
  import opened VarInt
  import opened PropertyFields
  import opened PropertyCodec

  // ---------- the table ----------

  predicate Increasing(ids: seq<Byte>) {
    forall i, j | 0 <= i < j < |ids| :: ids[i] < ids[j]
  }

  lemma TableIncreasing()
    ensures Increasing(TABLE)
  {
    assert forall i | 0 < i < |TABLE| :: TABLE[i - 1] < TABLE[i];
    NeighboursIncrease(TABLE);
  }

  lemma {:induction false} NeighboursIncrease(ids: seq<Byte>)
    requires forall i | 0 < i < |ids| :: ids[i - 1] < ids[i]
    ensures Increasing(ids)
  {
    if ids != [] {
      var front := ids[..|ids| - 1];
      NeighboursIncrease(front);
      forall i, j | 0 <= i < j < |ids|
        ensures ids[i] < ids[j]
      {
        if j == |ids| - 1 && i < j - 1 {
          assert front[i] < front[j - 1];
          assert ids[j - 1] < ids[j];
        } else if j < |ids| - 1 {
          assert front[i] < front[j];
        } else {
          assert ids[j - 1] < ids[j];
        }
      }
    }
  }

  /** The table lists every identifier that carries values. */
  lemma TableComplete(p: Properties, id: Byte)
    requires id !in TABLE
    ensures Get(p, id) == [] && KindOf(id).None?
  {
    assert forall i | 0 <= i < |TABLE| :: TABLE[i] in TABLE;
    assert TABLE[0] != id && TABLE[1] != id && TABLE[2] != id && TABLE[3] != id && TABLE[4] != id;
    assert TABLE[5] != id && TABLE[6] != id && TABLE[7] != id && TABLE[8] != id && TABLE[9] != id;
    assert TABLE[10] != id && TABLE[11] != id && TABLE[12] != id && TABLE[13] != id && TABLE[14] != id;
    assert TABLE[15] != id && TABLE[16] != id && TABLE[17] != id && TABLE[18] != id && TABLE[19] != id;
    assert TABLE[20] != id && TABLE[21] != id && TABLE[22] != id && TABLE[23] != id && TABLE[24] != id;
    assert TABLE[25] != id && TABLE[26] != id;
  }

  /** The table lists exactly the identifiers that have a kind. */
  lemma TableKinds(id: Byte)
    ensures KindOf(id).Some? <==> id in TABLE
  {
    if id !in TABLE {
      TableComplete(DEFAULT, id);
    }
  }

  // ---------- the records of a block ----------

  lemma {:induction false} ValuesOfConcat(a: seq<Record>, b: seq<Record>, id: Byte)
    ensures ValuesOf(a + b, id) == ValuesOf(a, id) + ValuesOf(b, id)
    decreases |a|
  {
    if a == [] {
      assert a + b == b && [] + ValuesOf(b, id) == ValuesOf(b, id);
    } else {
      var head := if a[0].id == id then [a[0].value] else [];
      ValuesOfConcat(a[1..], b, id);
      assert (a + b)[1..] == a[1..] + b && (a + b)[0] == a[0];
      assert ValuesOf(a + b, id) == head + ValuesOf(a[1..] + b, id);
      assert head + (ValuesOf(a[1..], id) + ValuesOf(b, id)) == head + ValuesOf(a[1..], id) + ValuesOf(b, id);
    }
  }

  lemma {:induction false} ValuesOfTagged(tag: Byte, values: seq<Value>, id: Byte)
    ensures ValuesOf(Tagged(tag, values), id) == if id == tag then values else []
  {
    if values != [] {
      ValuesOfTagged(tag, values[1..], id);
      assert Tagged(tag, values)[1..] == Tagged(tag, values[1..]);
      assert values == [values[0]] + values[1..];
    }
  }

  lemma {:induction false} ValuesOfRecords(p: Properties, ids: seq<Byte>, id: Byte)
    requires Increasing(ids)
    ensures ValuesOf(RecordsFor(p, ids), id) == if id in ids then Get(p, id) else []
  {
    hide Get;
    if ids != [] {
      var head := Tagged(ids[0], Get(p, ids[0]));
      ValuesOfConcat(head, RecordsFor(p, ids[1..]), id);
      ValuesOfTagged(ids[0], Get(p, ids[0]), id);
      ValuesOfRecords(p, ids[1..], id);
      assert ids == [ids[0]] + ids[1..];
    }
  }

  lemma {:induction false} TaggedIds(id: Byte, values: seq<Value>)
    ensures |Tagged(id, values)| == |values|
    ensures forall i | 0 <= i < |values| :: Tagged(id, values)[i] == Record(id, values[i])
  {
    if values != [] {
      TaggedIds(id, values[1..]);
    }
  }

  predicate Ascending(rs: seq<Record>) {
    forall i, j | 0 <= i < j < |rs| :: rs[i].id <= rs[j].id
  }

  lemma {:induction false} RecordsAscend(p: Properties, ids: seq<Byte>)
    requires Increasing(ids)
    ensures Ascending(RecordsFor(p, ids))
    ensures forall i | 0 <= i < |RecordsFor(p, ids)| :: RecordsFor(p, ids)[i].id in ids
  {
    hide Get;
    if ids != [] {
      RecordsAscend(p, ids[1..]);
      TaggedIds(ids[0], Get(p, ids[0]));
      assert ids == [ids[0]] + ids[1..];
    }
  }

  lemma {:induction false} FreshAfter(id: Byte, values: seq<Value>, rest: seq<Record>, seen: set<Byte>)
    requires Repeatable(id) || (|values| <= 1 && id !in seen)
    requires Fresh(rest, seen) && Fresh(rest, seen + {id})
    ensures Fresh(Tagged(id, values) + rest, seen)
  {
    var all := Tagged(id, values) + rest;
    if values == [] {
      assert all == rest;
    } else {
      assert all[0] == Record(id, values[0]) && all[1..] == Tagged(id, values[1..]) + rest;
      if Repeatable(id) {
        FreshAfter(id, values[1..], rest, seen);
      } else {
        assert all[1..] == rest;
      }
    }
  }

  lemma {:induction false} RecordsFresh(p: Properties, ids: seq<Byte>, seen: set<Byte>)
    requires Increasing(ids) && forall id | id in ids :: id !in seen
    ensures Fresh(RecordsFor(p, ids), seen)
  {
    hide Get;
    if ids != [] {
      GetTyped(p, ids[0]);
      RecordsFresh(p, ids[1..], seen);
      RecordsFresh(p, ids[1..], seen + {ids[0]});
      FreshAfter(ids[0], Get(p, ids[0]), RecordsFor(p, ids[1..]), seen);
    }
  }

  // ---------- encoding is undone by decoding ----------

  lemma EmptyHoldsNothing(id: Byte)
    ensures Get(DEFAULT, id) == []
  {
  }

  /** Collecting the records of `p` gives `p` back. */
  lemma CollectRecords(p: Properties)
    requires AllWritable(RecordsOf(p))
    ensures PutAll(DEFAULT, RecordsOf(p)) == p
  {
    hide Get, PutAll, Writable;
    var rs := RecordsOf(p);
    TableIncreasing();
    RecordsFresh(p, TABLE, {});
    forall id: Byte ensures Get(PutAll(DEFAULT, rs), id) == Get(p, id) {
      EmptyHoldsNothing(id);
      GetPutAll(DEFAULT, rs, {}, id);
      ValuesOfRecords(p, TABLE, id);
      if id !in TABLE {
        TableComplete(p, id);
      }
      assert [] + Get(p, id) == Get(p, id);
    }
    Extensional(PutAll(DEFAULT, rs), p);
  }

  /** A block as it stands on the wire. */
  function Framed(rs: seq<Record>): Bytes
    requires AllWritable(rs)
  {
    VbiBytes(|Flat(rs)|) + Flat(rs)
  }

  /** The records that a block may hold: writable, no optional one twice, valid together, short enough. */
  predicate Acceptable(rs: seq<Record>) {
    && AllWritable(rs)
    && Fresh(rs, {})
    && ValueFault(PutAll(DEFAULT, rs)).None?
    && |Flat(rs)| <= MAX_VARIABLE_BYTE_INTEGER
  }

  /** Every acceptable block is decoded to what its records collect to, wherever it stands. */
  lemma BlockComplete(body: Bytes, c: nat, rs: seq<Record>)
    requires Acceptable(rs) && Holds(body, c, Framed(rs))
    ensures PropertiesAt(body, c) == Ok((PutAll(DEFAULT, rs), c + |Framed(rs)|))
  {
    hide VbiAt, CollectFrom, PutAll, ValueFault, Flat, AllWritable, Fresh;
    var n := |Flat(rs)|;
    HoldsConcat(body, c, VbiBytes(n), Flat(rs));
    var start := c + |VbiBytes(n)|;
    VbiReads(body, c, n, start);
    var block := body[start..start + n];
    assert block == Flat(rs) && block[0..0 + n] == block;
    CollectComplete(block, 0, DEFAULT, {}, rs);
  }

  /** The records of the block that stands at `c`. */
  ghost function BlockRecords(body: Bytes, c: nat): (rs: seq<Record>)
    requires PropertiesAt(body, c).Ok?
    ensures AllWritable(rs)
  {
    var (length, start) := VbiAt(body, c).value;
    RecordsFrom(body[start..start + length], 0)
  }

  /** Nothing but an acceptable block is decoded. */
  lemma BlockSound(body: Bytes, c: nat)
    requires PropertiesAt(body, c).Ok?
    ensures var rs := BlockRecords(body, c);
            && Acceptable(rs) && Holds(body, c, Framed(rs))
            && PropertiesAt(body, c) == Ok((PutAll(DEFAULT, rs), c + |Framed(rs)|))
  {
    hide VbiAt, VbiBytes, CollectFrom, RecordsFrom, PutAll, ValueFault, Flat, AllWritable, Fresh;
    var (n, start) := VbiAt(body, c).value;
    var block := body[start..start + n];
    VbiReads(body, c, n, start);
    CollectSound(block, 0, DEFAULT, {});
    var rs := RecordsFrom(block, 0);
    assert block[0..0 + |Flat(rs)|] == block == Flat(rs);
    HoldsConcat(body, c, VbiBytes(n), Flat(rs));
  }

  /** Whenever encoding succeeds, decoding the bytes in any context gives the block back and stops after it. */
  lemma PropertiesRoundTrip(body: Bytes, c: nat, p: Properties)
    requires EncodedProperties(p).Ok? && Holds(body, c, EncodedProperties(p).value)
    ensures PropertiesAt(body, c) == Ok((p, c + |EncodedProperties(p).value|))
  {
    hide PropertiesAt, ValueFault, RecordsOf, EncodedRecords, PutAll, Writable, Flat, Fresh;
    var rs := RecordsOf(p);
    RecordsTyped(p, TABLE);
    CollectRecords(p);
    RecordsOfFresh(p);
    BlockComplete(body, c, rs);
  }

  lemma RecordsOfFresh(p: Properties)
    ensures Fresh(RecordsOf(p), {}) && Ascending(RecordsOf(p)) && AllTyped(RecordsOf(p))
  {
    hide RecordsFor, Fresh;
    TableIncreasing();
    RecordsFresh(p, TABLE, {});
    RecordsAscend(p, TABLE);
    RecordsTyped(p, TABLE);
  }

  /** The result depends on the block alone: move the accepted bytes anywhere and the same block is read. */
  lemma PropertiesLocal(body: Bytes, c: nat, other: Bytes, d: nat)
    requires PropertiesAt(body, c).Ok?
    requires Holds(other, d, body[c..PropertiesAt(body, c).value.1])
    ensures var (p, c') := PropertiesAt(body, c).value;
            PropertiesAt(other, d) == Ok((p, d + c' - c))
  {
    hide PropertiesAt, Acceptable, PutAll, Flat, AllWritable;
    BlockSound(body, c);
    var rs := BlockRecords(body, c);
    assert body[c..PropertiesAt(body, c).value.1] == Framed(rs);
    BlockComplete(other, d, rs);
  }

  // ---------- decoding then encoding is a stable sort ----------

  /** `out` is `rs` stably sorted: ascending identifiers, and per identifier the same values in the same order. */
  ghost predicate StableSort(rs: seq<Record>, out: seq<Record>) {
    Ascending(out) && forall id: Byte :: ValuesOf(out, id) == ValuesOf(rs, id)
  }

  lemma {:induction false} ValuesOfCount(rs: seq<Record>, r: Record)
    ensures multiset(ValuesOf(rs, r.id))[r.value] == multiset(rs)[r]
  {
    if rs != [] {
      ValuesOfCount(rs[1..], r);
      assert rs == [rs[0]] + rs[1..];
    }
  }

  lemma StableSortPermutes(rs: seq<Record>, out: seq<Record>)
    requires StableSort(rs, out)
    ensures multiset(out) == multiset(rs)
  {
    forall r: Record ensures multiset(out)[r] == multiset(rs)[r] {
      ValuesOfCount(rs, r);
      ValuesOfCount(out, r);
    }
  }

  lemma FirstValue(rs: seq<Record>, id: Byte)
    requires ValuesOf(rs, id) != []
    ensures exists i | 0 <= i < |rs| :: rs[i].id == id
  {
    if rs[0].id != id {
      assert ValuesOf(rs, id) == ValuesOf(rs[1..], id);
      FirstValue(rs[1..], id);
      var i :| 0 <= i < |rs[1..]| && rs[1..][i].id == id;
      assert rs[i + 1].id == id;
    }
  }

  lemma ValuesOfTail(rs: seq<Record>, id: Byte)
    requires rs != []
    ensures ValuesOf(rs[1..], id) == ValuesOf(rs, id)[if rs[0].id == id then 1 else 0..]
  {
  }

  lemma SameHead(a: seq<Record>, b: seq<Record>)
    requires Ascending(a) && Ascending(b) && forall id: Byte :: ValuesOf(a, id) == ValuesOf(b, id)
    requires a != []
    ensures b != [] && a[0] == b[0]
  {
    hide ValuesOf;
    HeadValue(a);
    FirstValue(b, a[0].id);
    HeadValue(b);
    FirstValue(a, b[0].id);
  }

  lemma HeadValue(rs: seq<Record>)
    requires rs != []
    ensures ValuesOf(rs, rs[0].id) != [] && ValuesOf(rs, rs[0].id)[0] == rs[0].value
  {
  }

  /** The stable sort is unique. */
  lemma {:induction false} StableSortUnique(a: seq<Record>, b: seq<Record>)
    requires Ascending(a) && Ascending(b) && forall id: Byte :: ValuesOf(a, id) == ValuesOf(b, id)
    ensures a == b
  {
    hide ValuesOf;
    if a == [] {
      if b != [] {
        SameHead(b, a);
      }
    } else {
      SameHead(a, b);
      forall id: Byte ensures ValuesOf(a[1..], id) == ValuesOf(b[1..], id) {
        ValuesOfTail(a, id);
        ValuesOfTail(b, id);
      }
      StableSortUnique(a[1..], b[1..]);
    }
  }

  lemma {:induction false} FlatRemove(rs: seq<Record>, k: nat)
    requires AllWritable(rs) && k < |rs|
    ensures AllWritable(rs[..k] + rs[k + 1..])
    ensures |Flat(rs)| == |RecordBytes(rs[k])| + |Flat(rs[..k] + rs[k + 1..])|
  {
    hide Writable, RecordBytes;
    if k == 0 {
      assert rs[..k] + rs[k + 1..] == rs[1..];
    } else {
      FlatRemove(rs[1..], k - 1);
      var rest := rs[..k] + rs[k + 1..];
      assert rest[1..] == rs[1..][..k - 1] + rs[1..][k..];
      assert rs[1..][k - 1] == rs[k];
    }
  }

  lemma MultisetRemove(rs: seq<Record>, k: nat)
    requires k < |rs|
    ensures multiset(rs[..k] + rs[k + 1..]) == multiset(rs) - multiset{rs[k]}
  {
    assert rs == rs[..k] + ([rs[k]] + rs[k + 1..]);
  }

  lemma PermutedWritable(rs: seq<Record>, out: seq<Record>)
    requires AllWritable(rs) && multiset(out) == multiset(rs)
    ensures AllWritable(out)
  {
    hide Writable;
    forall i | 0 <= i < |out| ensures Writable(out[i]) {
      assert out[i] in multiset(out);
      assert out[i] in rs;
    }
  }

  /** A permutation of the records takes the same number of bytes. */
  lemma {:induction false} PermutedLength(rs: seq<Record>, out: seq<Record>)
    requires AllWritable(rs) && multiset(out) == multiset(rs)
    ensures AllWritable(out) && |Flat(out)| == |Flat(rs)|
  {
    hide Writable, RecordBytes, Flat, AllWritable;
    PermutedWritable(rs, out);
    if rs == [] {
      assert |multiset(out)| == 0;
    } else {
      var k := HeadFound(rs, out);
      var tail, rest := rs[..0] + rs[1..], out[..k] + out[k + 1..];
      FlatRemove(rs, 0);
      FlatRemove(out, k);
      assert multiset(rest) == multiset(tail) by {
        MultisetRemove(out, k);
        MultisetRemove(rs, 0);
      }
      PermutedLength(tail, rest);
    }
  }

  lemma HeadFound(rs: seq<Record>, out: seq<Record>) returns (k: nat)
    requires rs != [] && multiset(out) == multiset(rs)
    ensures k < |out| && out[k] == rs[0]
  {
    assert rs[0] in multiset(rs);
    assert rs[0] in multiset(out);
    k :| 0 <= k < |out| && out[k] == rs[0];
  }

  /** What collecting then listing does to fresh records. */
  lemma CollectSorts(rs: seq<Record>)
    requires AllWritable(rs) && Fresh(rs, {})
    ensures StableSort(rs, RecordsOf(PutAll(DEFAULT, rs)))
  {
    hide PutAll, AllWritable, Fresh, RecordsOf, ValuesOf, Ascending;
    var p := PutAll(DEFAULT, rs);
    RecordsOfFresh(p);
    forall id: Byte ensures ValuesOf(RecordsOf(p), id) == ValuesOf(rs, id) {
      CollectedValues(rs, id);
    }
  }

  lemma CollectedValues(rs: seq<Record>, id: Byte)
    requires AllWritable(rs) && Fresh(rs, {})
    ensures ValuesOf(RecordsOf(PutAll(DEFAULT, rs)), id) == ValuesOf(rs, id)
  {
    hide Get, PutAll, Writable, Fresh, RecordsFor, ValuesOf, Increasing;
    var p := PutAll(DEFAULT, rs);
    TableIncreasing();
    EmptyHoldsNothing(id);
    GetPutAll(DEFAULT, rs, {}, id);
    ValuesOfRecords(p, TABLE, id);
    if id !in TABLE {
      TableComplete(p, id);
    }
    assert [] + ValuesOf(rs, id) == ValuesOf(rs, id);
  }

  /**
    Canonicalisation. For every block the decoder accepts, encoding the result
    succeeds and writes the same records, stably sorted by identifier, under the
    same length prefix.
   */
  lemma Canonicalisation(body: Bytes, c: nat)
    requires PropertiesAt(body, c).Ok?
    ensures var (p, c') := PropertiesAt(body, c).value;
            var rs, out := BlockRecords(body, c), RecordsOf(p);
            && body[c..c'] == Framed(rs)
            && AllWritable(out) && StableSort(rs, out) && multiset(out) == multiset(rs)
            && |Flat(out)| == |Flat(rs)|
            && EncodedProperties(p) == Ok(VbiBytes(|Flat(rs)|) + Flat(out))
  {
    hide PropertiesAt, PutAll, ValueFault, Flat, AllWritable, Fresh, RecordsOf, ValuesOf, Ascending;
    BlockSound(body, c);
    var rs := BlockRecords(body, c);
    var p := PutAll(DEFAULT, rs);
    var out := RecordsOf(p);
    CollectSorts(rs);
    StableSortPermutes(rs, out);
    PermutedLength(rs, out);
    RecordsOfFresh(p);
  }

  /** An accepted block comes back byte for byte exactly when its records already ascend. */
  lemma CanonicalFixpoint(body: Bytes, c: nat)
    requires PropertiesAt(body, c).Ok?
    ensures var (p, c') := PropertiesAt(body, c).value;
            EncodedProperties(p) == Ok(body[c..c']) <==> Ascending(BlockRecords(body, c))
  {
    hide PropertiesAt, EncodedProperties, PutAll, ValueFault, Flat, AllWritable, Fresh, RecordsOf, ValuesOf;
    Canonicalisation(body, c);
    var rs := BlockRecords(body, c);
    var (p, c') := PropertiesAt(body, c).value;
    var out := RecordsOf(p);
    RecordsOfFresh(p);
    if Ascending(rs) {
      StableSortUnique(rs, out);
    }
    if EncodedProperties(p) == Ok(body[c..c']) {
      var prefix := VbiBytes(|Flat(rs)|);
      assert (prefix + Flat(out))[|prefix|..] == Flat(out);
      assert (prefix + Flat(rs))[|prefix|..] == Flat(rs);
      FlatInjective(rs, out);
    }
  }

  lemma {:induction false} FlatInjective(rs: seq<Record>, out: seq<Record>)
    requires AllWritable(rs) && AllWritable(out) && Flat(rs) == Flat(out)
    ensures rs == out
  {
    hide Writable, RecordBytes, RecordAt;
    if rs == [] || out == [] {
    } else {
      var b := Flat(rs);
      HoldsConcat(b, 0, RecordBytes(rs[0]), Flat(rs[1..]));
      HoldsConcat(b, 0, RecordBytes(out[0]), Flat(out[1..]));
      assert b[0..|b|] == b;
      RecordReads(b, 0, rs[0], |RecordBytes(rs[0])|);
      RecordReads(b, 0, out[0], |RecordBytes(out[0])|);
      assert b[|RecordBytes(rs[0])|..] == Flat(rs[1..]) == Flat(out[1..]);
      FlatInjective(rs[1..], out[1..]);
    }
  }
}
