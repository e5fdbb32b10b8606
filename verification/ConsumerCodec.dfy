/** The 68-byte record encoding of a contract's consumed opouts (`OpoutAndOpids`). */
module ConsumerCodec {
  import opened Base
  import opened Protocol

  const RECORD_SIZE := 68

  datatype Record = Record(opout: Opout, opid: OpId)

  function LittleEndian(x: U16): (b: Bytes)
    ensures |b| == 2
  {
    [x % 0x100, x / 0x100]
  }

  function FromLittleEndian(low: Byte, high: Byte): U16 {
    low + 0x100 * high
  }

  function EncodeRecord(r: Record): (b: Bytes)
    ensures |b| == RECORD_SIZE
  {
    r.opout.op + LittleEndian(r.opout.ty) + LittleEndian(r.opout.no) + r.opid
  }

  function ParseRecord(b: Bytes): Record
    requires |b| == RECORD_SIZE
  {
    Record(Opout(b[..32], FromLittleEndian(b[32], b[33]), FromLittleEndian(b[34], b[35])), b[36..])
  }

  lemma ParseEncoded(r: Record)
    ensures ParseRecord(EncodeRecord(r)) == r
  {
  }

  lemma EncodeParsed(b: Bytes)
    requires |b| == RECORD_SIZE
    ensures EncodeRecord(ParseRecord(b)) == b
  {
  }

  /** A record is the operation, type and number with the low byte first, and the spender. */
  lemma RecordLayout(r: Record)
    ensures var b := EncodeRecord(r);
      && |b| == 68 && b[..32] == r.opout.op
      && b[32] == r.opout.ty % 256 && b[33] == r.opout.ty / 256
      && b[34] == r.opout.no % 256 && b[35] == r.opout.no / 256
      && b[36..] == r.opid
  {
    ParseEncoded(r);
  }

  /* Record lists and byte strings of a multiple of 68 bytes are the same thing. */
  function Flatten(rs: seq<Record>): Bytes {
    if rs == [] then [] else EncodeRecord(rs[0]) + Flatten(rs[1..])
  }

  function Chunks(b: Bytes): (rs: seq<Record>)
    requires |b| % RECORD_SIZE == 0
    ensures |rs| * RECORD_SIZE == |b|
  {
    if b == [] then [] else [ParseRecord(b[..RECORD_SIZE])] + Chunks(b[RECORD_SIZE..])
  }

  lemma {:induction false} ChunksOfFlatten(rs: seq<Record>)
    ensures |Flatten(rs)| == RECORD_SIZE * |rs|
    ensures Chunks(Flatten(rs)) == rs
  {
    if rs != [] {
      ChunksOfFlatten(rs[1..]);
      ParseEncoded(rs[0]);
      var b := Flatten(rs);
      assert b[..RECORD_SIZE] == EncodeRecord(rs[0]) && b[RECORD_SIZE..] == Flatten(rs[1..]);
    }
  }

  lemma {:induction false} FlattenOfChunks(b: Bytes)
    requires |b| % RECORD_SIZE == 0
    ensures Flatten(Chunks(b)) == b
  {
    if b != [] {
      FlattenOfChunks(b[RECORD_SIZE..]);
      EncodeParsed(b[..RECORD_SIZE]);
      assert b == b[..RECORD_SIZE] + b[RECORD_SIZE..];
    }
  }

  /* Inserting records one by one into a map. */
  function InsertAll(m: map<Opout, OpId>, rs: seq<Record>): map<Opout, OpId>
    decreases |rs|
  {
    if rs == [] then m else InsertAll(m[rs[0].opout := rs[0].opid], rs[1..])
  }

  ghost predicate NoneFor(rs: seq<Record>, o: Opout) {
    forall k :: 0 <= k < |rs| ==> rs[k].opout != o
  }

  /* `k` is the position of the last record for opout `o`. */
  ghost predicate LastFor(rs: seq<Record>, o: Opout, k: int) {
    0 <= k < |rs| && rs[k].opout == o && NoneFor(rs[k + 1..], o)
  }

  /* Keys without a record keep what they had. */
  lemma {:induction false} KeysWithoutRecord(m: map<Opout, OpId>, rs: seq<Record>, o: Opout)
    requires NoneFor(rs, o)
    ensures o in InsertAll(m, rs) <==> o in m
    ensures o in m ==> InsertAll(m, rs)[o] == m[o]
    decreases |rs|
  {
    if rs != [] {
      assert rs[0].opout != o;
      KeysWithoutRecord(m[rs[0].opout := rs[0].opid], rs[1..], o);
    }
  }

  /** Record `k` of a record list is at byte 68 * k. */
  lemma {:induction false} RecordAt(rs: seq<Record>, k: nat)
    requires k < |rs|
    ensures |Flatten(rs)| == 68 * |rs| && Flatten(rs)[68 * k..68 * k + 68] == EncodeRecord(rs[k])
  {
    ChunksOfFlatten(rs);
    var b, rest := EncodeRecord(rs[0]), Flatten(rs[1..]);
    assert Flatten(rs) == b + rest;
    hide EncodeRecord;
    if k > 0 {
      RecordAt(rs[1..], k - 1);
      assert (b + rest)[68 * k..68 * k + 68] == rest[68 * (k - 1)..68 * (k - 1) + 68];
    }
  }

  /** For duplicate keys the last record wins. */
  lemma {:induction false} LastRecordWins(m: map<Opout, OpId>, rs: seq<Record>, o: Opout, k: int)
    requires LastFor(rs, o, k)
    ensures o in InsertAll(m, rs) && InsertAll(m, rs)[o] == rs[k].opid
    decreases |rs|
  {
    var m' := m[rs[0].opout := rs[0].opid];
    if k == 0 {
      KeysWithoutRecord(m', rs[1..], o);
    } else {
      assert rs[1..][k..] == rs[k + 1..];
      LastRecordWins(m', rs[1..], o, k - 1);
    }
  }

  ghost function RecordsOf(m: map<Opout, OpId>, keys: seq<Opout>): seq<Record>
    requires forall o :: o in keys ==> o in m
  {
    seq(|keys|, i requires 0 <= i < |keys| => Record(keys[i], m[keys[i]]))
  }

  ghost function Entries(m: map<Opout, OpId>): seq<Record> {
    RecordsOf(m, Ascending(m.Keys))
  }

  ghost predicate StrictlyAscending(rs: seq<Record>) {
    forall i, j :: 0 <= i < j < |rs| ==> Below(rs[i].opout, rs[j].opout)
  }

  /** What `serialize` writes for a map. */
  ghost function Encoding(m: map<Opout, OpId>): Bytes {
    Flatten(Entries(m))
  }

  /** What `deserialize` reads from bytes. */
  function Decoding(b: Bytes): Result<map<Opout, OpId>, RgbError> {
    if |b| % RECORD_SIZE != 0 then Err(InvalidOpoutAndOpidsData(|b|)) else Ok(InsertAll(map[], Chunks(b)))
  }

  lemma LastInAscending(rs: seq<Record>, k: nat)
    requires StrictlyAscending(rs) && k < |rs|
    ensures LastFor(rs, rs[k].opout, k)
  {
    forall j | k < j < |rs| ensures rs[j].opout != rs[k].opout {
      BelowTotal(rs[k].opout, rs[j].opout);
    }
  }

  lemma EntriesAscending(m: map<Opout, OpId>)
    ensures StrictlyAscending(Entries(m))
  {
    AscendingIsAscending(m.Keys);
  }

  lemma InsertEntries(m: map<Opout, OpId>)
    ensures InsertAll(map[], Entries(m)) == m
  {
    var keys, rs := Ascending(m.Keys), Entries(m);
    EntriesAscending(m);
    forall o ensures o in InsertAll(map[], rs) <==> o in m
             ensures o in m ==> InsertAll(map[], rs)[o] == m[o]
    {
      if o in m {
        assert o in keys;
        var k :| 0 <= k < |keys| && keys[k] == o;
        LastInAscending(rs, k);
        LastRecordWins(map[], rs, o, k);
      } else {
        forall k | 0 <= k < |rs| ensures rs[k].opout != o { assert keys[k] in keys; }
        KeysWithoutRecord(map[], rs, o);
      }
    }
  }

  /** Every map survives serialization. */
  lemma RoundTrip(m: map<Opout, OpId>)
    ensures Decoding(Encoding(m)) == Ok(m)
    ensures |Encoding(m)| == RECORD_SIZE * |m|
  {
    hide Flatten, InsertAll, Chunks;
    ChunksOfFlatten(Entries(m));
    InsertEntries(m);
  }

  lemma AscendingEntriesUnique(rs: seq<Record>, m: map<Opout, OpId>)
    requires StrictlyAscending(rs) && m == InsertAll(map[], rs)
    ensures Entries(m) == rs
  {
    var keys := seq(|rs|, i requires 0 <= i < |rs| => rs[i].opout);
    forall k | 0 <= k < |rs| ensures rs[k].opout in m && m[rs[k].opout] == rs[k].opid {
      LastInAscending(rs, k);
      LastRecordWins(map[], rs, rs[k].opout, k);
    }
    forall o ensures o in keys <==> o in m.Keys {
      if o !in keys {
        forall k | 0 <= k < |rs| ensures rs[k].opout != o { assert keys[k] in keys; }
        KeysWithoutRecord(map[], rs, o);
      }
    }
    AscendingUnique(keys, m.Keys);
  }

  /** Reserializing returns the same bytes exactly when the records ascend strictly by opout. */
  lemma ReserializeIff(b: Bytes)
    requires |b| % RECORD_SIZE == 0
    ensures Encoding(Decoding(b).value) == b <==> StrictlyAscending(Chunks(b))
  {
    var m := Decoding(b).value;
    if StrictlyAscending(Chunks(b)) {
      AscendingEntriesUnique(Chunks(b), m);
      FlattenOfChunks(b);
    }
    if Encoding(m) == b {
      ChunksOfFlatten(Entries(m));
      EntriesAscending(m);
    }
  }

  lemma FlattenLeast(m: map<Opout, OpId>, rest: set<Opout>)
    requires rest <= m.Keys && rest != {}
    ensures Flatten(RecordsOf(m, Ascending(rest))) ==
              EncodeRecord(Record(Least(rest), m[Least(rest)])) + Flatten(RecordsOf(m, Ascending(rest - {Least(rest)})))
  {
    var rs, tail := RecordsOf(m, Ascending(rest)), RecordsOf(m, Ascending(rest - {Least(rest)}));
    assert rs[0] == Record(Least(rest), m[Least(rest)]);
    assert rs[1..] == tail;
  }

  lemma AppendRecord(b: Bytes, r: Record, rest: Bytes)
    ensures b + r.opout.op + LittleEndian(r.opout.ty) + LittleEndian(r.opout.no) + r.opid + rest ==
              b + (EncodeRecord(r) + rest)
  {
  }

  /** Appends the records of the map in iteration order. */
  method Serialize(items: map<Opout, OpId>) returns (bytes: Bytes)
    ensures bytes == Encoding(items)
  {
    bytes := [];
    var rest := items.Keys;
    while rest != {}
      invariant rest <= items.Keys
      invariant bytes + Flatten(RecordsOf(items, Ascending(rest))) == Encoding(items)
    {
      LeastExists(rest);
      var opout :| opout in rest && forall p :: p in rest && p != opout ==> Below(opout, p);
      BelowTotal(opout, Least(rest));
      FlattenLeast(items, rest);
      var opid := items[opout];
      AppendRecord(bytes, Record(opout, opid), Flatten(RecordsOf(items, Ascending(rest - {opout}))));
      bytes := bytes + opout.op;
      bytes := bytes + LittleEndian(opout.ty);
      bytes := bytes + LittleEndian(opout.no);
      bytes := bytes + opid;
      rest := rest - {opout};
    }
  }

  /** Reads 68-byte chunks with a cursor; a trailing partial chunk is an error. */
  method Deserialize(bytes: Bytes) returns (r: Result<map<Opout, OpId>, RgbError>)
    ensures r == Decoding(bytes)
    ensures r.Err? <==> |bytes| % RECORD_SIZE != 0
  {
    if |bytes| % RECORD_SIZE != 0 {
      return Err(InvalidOpoutAndOpidsData(|bytes|));
    }
    var items: map<Opout, OpId> := map[];
    var rest := bytes;
    while rest != []
      invariant |rest| % RECORD_SIZE == 0
      invariant InsertAll(items, Chunks(rest)) == InsertAll(map[], Chunks(bytes))
      decreases |rest|
    {
      var chunk := rest[..RECORD_SIZE];
      var cursor := 0;
      var op: OpId := chunk[cursor..cursor + 32];
      cursor := cursor + 32;
      var ty := FromLittleEndian(chunk[cursor], chunk[cursor + 1]);
      cursor := cursor + 2;
      var no := FromLittleEndian(chunk[cursor], chunk[cursor + 1]);
      cursor := cursor + 2;
      var opid: OpId := chunk[cursor..cursor + 32];
      assert ParseRecord(chunk) == Record(Opout(op, ty, no), opid) by {
        assert chunk[0..32] == chunk[..32] && chunk[36..68] == chunk[36..];
      }
      items := items[Opout(op, ty, no) := opid];
      rest := rest[RECORD_SIZE..];
    }
    r := Ok(items);
  }
}
