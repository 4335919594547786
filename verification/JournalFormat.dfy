/** Values stored in a journal file (ffi/journal.c): the header, the objects of
    the arena, and the field encoding `KEY=value` of a DATA payload. Offsets and
    64-bit counters are unbounded naturals; every place where the writer checks
    or relies on a machine width says so explicitly. */
module JournalFormat {
  import opened Basics

  const UINT64_MODULUS: nat := 0x1_0000_0000_0000_0000

  const HEADER_SIZE: nat := 272
  const OBJECT_HEADER_SIZE: nat := 16
  const HASH_ITEM_SIZE: nat := 16
  const DATA_BUCKETS: nat := 1024
  const FIELD_BUCKETS: nat := 333
  const MAX_FIELD_NAME: nat := 64

  datatype Error = EBADMSG | EFBIG | EBUSY | E2BIG | ESTALE | EIO | EPROTONOSUPPORT

  /** The outcome of a call that returns 0 or a negative errno. */
  datatype Status = Done | Fail(error: Error)

  datatype HashItem = HashItem(head: nat, tail: nat)

  datatype EntryItem = EntryItem(offset: nat, hash: nat)

  datatype FieldObject = FieldObject(hash: nat, nextHash: nat, headData: nat, name: Bytes)

  datatype DataObject = DataObject(
    hash: nat, nextHash: nat, nextField: nat,
    entryOffset: nat, entryArray: nat, nEntries: nat, payload: Bytes)

  datatype EntryObject = EntryObject(
    seqnum: nat, realtime: nat, monotonic: nat, bootId: Bytes, xorHash: nat, items: seq<EntryItem>)

  datatype ArrayObject = ArrayObject(next: nat, item: nat)

  datatype ObjectType = DATA | FIELD | ENTRY | DATA_HASH_TABLE | FIELD_HASH_TABLE | ENTRY_ARRAY

  datatype ObjectHeader = ObjectHeader(type_: ObjectType, size: nat)

  /** The objects of a file. `heads` is the object header at each offset; the
      bodies are kept by type. An offset that has a header but no body is an
      object that `append_zero_object` has just allocated and zeroed. The two
      hash tables have fixed places. */
  datatype Arena = Arena(
    heads: map<nat, ObjectHeader>,
    dataTable: seq<HashItem>,
    fieldTable: seq<HashItem>,
    fields: map<nat, FieldObject>,
    datas: map<nat, DataObject>,
    entries: map<nat, EntryObject>,
    arrays: map<nat, ArrayObject>)

  function FieldSize(name: Bytes): nat { 40 + |name| }
  function DataSize(payload: Bytes): nat { 64 + |payload| }
  function EntrySize(nItems: nat): nat { 64 + 16 * nItems }
  const ARRAY_SIZE: nat := 32

  function Align(n: nat): (r: nat)
    ensures n <= r < n + 8 && r % 8 == 0
  {
    (n + 7) / 8 * 8
  }

  datatype Header = Header(
    online: bool,
    arenaSize: nat,
    dataTable: nat, dataTableSize: nat,
    fieldTable: nat, fieldTableSize: nat,
    tailObject: nat, nObjects: nat,
    nEntries: nat, tailSeqnum: nat, headSeqnum: nat,
    entryArray: nat,
    headRealtime: nat, tailRealtime: nat, tailMonotonic: nat, tailBootId: Bytes,
    nData: nat, nFields: nat, nEntryArrays: nat,
    tailEntryArray: nat, tailEntryArrayEntries: nat, tailEntry: nat)

  /** One key/value pair handed to `rustd_journal_file_append`. */
  datatype JournalField = JournalField(key: Bytes, value: Bytes)

  predicate FieldByte(b: Byte) {
    65 <= b <= 90 || 48 <= b <= 57 || b == 95
  }

  predicate FieldNameValid(key: Bytes) {
    && 0 < |key| <= MAX_FIELD_NAME
    && !(48 <= key[0] <= 57)
    && forall i :: 0 <= i < |key| ==> FieldByte(key[i])
  }

  function Payload(f: JournalField): Bytes {
    f.key + [EQUALS] + f.value
  }

  /** The name of a payload: everything before the first `=`. */
  function KeyOf(payload: Bytes): Bytes {
    if payload == [] || payload[0] == EQUALS then []
    else [payload[0]] + KeyOf(payload[1..])
  }

  lemma {:induction false} KeyOfPayload(f: JournalField)
    requires forall i :: 0 <= i < |f.key| ==> f.key[i] != EQUALS
    ensures KeyOf(Payload(f)) == f.key
    decreases |f.key|
  {
    if f.key != [] {
      var rest := JournalField(f.key[1..], f.value);
      assert Payload(f)[1..] == Payload(rest);
      KeyOfPayload(rest);
    }
  }

  /** A stored payload determines the field it was built from, because a valid
      name never contains `=`. */
  function SplitPayload(payload: Bytes): JournalField {
    var k := KeyOf(payload);
    if |k| < |payload| then JournalField(k, payload[|k| + 1..]) else JournalField(k, [])
  }

  lemma SplitAfterPayload(f: JournalField)
    requires FieldNameValid(f.key)
    ensures KeyOf(Payload(f)) == f.key
    ensures SplitPayload(Payload(f)) == f
  {
    KeyOfPayload(f);
    assert Payload(f)[|f.key| + 1..] == f.value;
  }
}
