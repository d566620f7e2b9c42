/** Predicting the packed size of token metadata before a field is updated. */
module Metadata {
  import opened Numbers
  import opened Merkle

  /** UTF-8 bytes: lengths are byte lengths. */
  type Text = seq<u8>

  datatype Entry = Entry(key: Text, value: Text)

  datatype TokenMetadata = TokenMetadata(name: Text, symbol: Text, uri: Text, additional: seq<Entry>)

  datatype Field = Name | Symbol | Uri | Key(key: Text)

  function EntriesSize(entries: seq<Entry>): nat {
    if |entries| == 0 then 0
    else 4 + |entries[0].key| + 4 + |entries[0].value| + EntriesSize(entries[1..])
  }

  function PackedMetaSize(m: TokenMetadata): nat {
    32 + 32 + 4 + |m.name| + 4 + |m.symbol| + 4 + |m.uri| + 4 + EntriesSize(m.additional)
  }

  /** The first entry with the given key. */
  function Find(entries: seq<Entry>, key: Text): (r: Option<Text>)
    ensures r.Some? ==> |r.value| <= EntriesSize(entries)
  {
    if |entries| == 0 then None
    else if entries[0].key == key then Some(entries[0].value)
    else Find(entries[1..], key)
  }

  /** The prediction; each difference is a natural number, so none of its subtractions underflows. */
  function NewPackedMetaSize(m: TokenMetadata, field: Field, value: Text): nat {
    var base := PackedMetaSize(m);
    match field
    case Name => (var rest: nat := base - |m.name|; rest + |value|)
    case Symbol => (var rest: nat := base - |m.symbol|; rest + |value|)
    case Uri => (var rest: nat := base - |m.uri|; rest + |value|)
    case Key(k) =>
      match Find(m.additional, k)
      case Some(current) => (var rest: nat := base - |current|; rest + |value|)
      case None => base + 4 + |k| + 4 + |value|
  }

  /** What the token program does to the entries: replace the first with the key, or append. */
  function Put(entries: seq<Entry>, key: Text, value: Text): seq<Entry> {
    if |entries| == 0 then [Entry(key, value)]
    else if entries[0].key == key then [Entry(key, value)] + entries[1..]
    else [entries[0]] + Put(entries[1..], key, value)
  }

  function Updated(m: TokenMetadata, field: Field, value: Text): TokenMetadata {
    match field
    case Name => m.(name := value)
    case Symbol => m.(symbol := value)
    case Uri => m.(uri := value)
    case Key(k) => m.(additional := Put(m.additional, k, value))
  }

  lemma {:induction false} PutSize(entries: seq<Entry>, key: Text, value: Text)
    ensures EntriesSize(Put(entries, key, value)) + (match Find(entries, key) case Some(v) => |v| case None => 0)
         == EntriesSize(entries) + |value| + (if Find(entries, key).Some? then 0 else 8 + |key|)
  {
    if |entries| == 0 {
      assert EntriesSize([Entry(key, value)][1..]) == 0;
    } else {
      var put := Put(entries, key, value);
      if entries[0].key == key {
        assert put[1..] == entries[1..];
      } else {
        PutSize(entries[1..], key, value);
        assert put[1..] == Put(entries[1..], key, value);
      }
    }
  }

  /** The predicted size is the size after the update, for every field and value. */
  lemma PredictionExact(m: TokenMetadata, field: Field, value: Text)
    ensures NewPackedMetaSize(m, field, value) == PackedMetaSize(Updated(m, field, value))
  {
    if field.Key? { PutSize(m.additional, field.key, value); }
  }

  // ---------- What the sizes are sizes of ----------

  /** A string on the wire: its length on four bytes, then its bytes. */
  function PackText(t: Text): Bytes { LittleEndian(|t|, 4) + t }

  function PackEntries(entries: seq<Entry>): Bytes {
    if |entries| == 0 then []
    else PackText(entries[0].key) + PackText(entries[0].value) + PackEntries(entries[1..])
  }

  /** The metadata on the wire: authority and mint, three strings, and a counted list of pairs. */
  function Pack(authority: Pubkey, mint: Pubkey, m: TokenMetadata): Bytes {
    authority.raw + mint.raw + PackText(m.name) + PackText(m.symbol) + PackText(m.uri)
    + LittleEndian(|m.additional|, 4) + PackEntries(m.additional)
  }

  lemma {:induction false} PackEntriesSize(entries: seq<Entry>)
    ensures |PackEntries(entries)| == EntriesSize(entries)
  {
    if |entries| > 0 { PackEntriesSize(entries[1..]); }
  }

  /** The computed size is the number of bytes on the wire. */
  lemma PackedSize(authority: Pubkey, mint: Pubkey, m: TokenMetadata)
    ensures |Pack(authority, mint, m)| == PackedMetaSize(m)
  {
    PackEntriesSize(m.additional);
  }

  /** An update is found under its key, and every other key finds what it did. */
  lemma {:induction false} PutFinds(entries: seq<Entry>, key: Text, value: Text, other: Text)
    ensures Find(Put(entries, key, value), other) == if other == key then Some(value) else Find(entries, other)
  {
    if |entries| > 0 && entries[0].key != key {
      PutFinds(entries[1..], key, value, other);
      assert Put(entries, key, value)[1..] == Put(entries[1..], key, value);
    } else if |entries| > 0 {
      assert Put(entries, key, value)[1..] == entries[1..];
    } else {
      assert Put(entries, key, value)[1..] == [];
    }
  }

  /** The predicted size is the number of bytes on the wire after the update. */
  lemma PredictedBytes(authority: Pubkey, mint: Pubkey, m: TokenMetadata, field: Field, value: Text)
    ensures |Pack(authority, mint, Updated(m, field, value))| == NewPackedMetaSize(m, field, value)
  {
    PredictionExact(m, field, value);
    PackedSize(authority, mint, Updated(m, field, value));
  }
}
