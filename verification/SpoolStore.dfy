/** memspool/server/spool.go: spools of messages in memory, written back to an ordered key-value store. */
module SpoolStore {
  import opened Bytes
  import opened Octets
  import opened Wrappers

  // ---------------------------------------------------------------- keys

  type Key = Blob

  /** The w octets of n, most significant first. */
  function BigEndian(n: nat, w: nat): (k: Key)
    ensures |k| == w
  {
    if w == 0 then [] else BigEndian(n / 256, w - 1) + [(n % 256) as Octet]
  }

  function Number(k: Key): nat {
    if k == [] then 0 else Number(k[..|k| - 1]) * 256 + k[|k| - 1] as nat
  }

  function Power(w: nat): nat { if w == 0 then 1 else 256 * Power(w - 1) }

  lemma {:induction false} NumberOfBigEndian(n: nat, w: nat)
    requires n < Power(w)
    ensures Number(BigEndian(n, w)) == n
  {
    if w != 0 {
      var k := BigEndian(n, w);
      assert k[..w - 1] == BigEndian(n / 256, w - 1) && k[w - 1] == (n % 256) as Octet;
      NumberOfBigEndian(n / 256, w - 1);
    }
  }

  lemma {:induction false} BigEndianOfNumber(k: Key)
    ensures Number(k) < Power(|k|) && BigEndian(Number(k), |k|) == k
  {
    if k != [] {
      var h, l := k[..|k| - 1], k[|k| - 1];
      BigEndianOfNumber(h);
      assert Number(k) / 256 == Number(h) && Number(k) % 256 == l as nat;
      assert h + [l] == k;
    }
  }

  /** The order in which the store walks through its keys. */
  predicate Before(a: Key, b: Key) {
    if a == [] then b != []
    else b != [] && (a[0] < b[0] || (a[0] == b[0] && Before(a[1..], b[1..])))
  }

  lemma {:induction false} BeforeLast(a: Key, b: Key, x: Octet, y: Octet)
    requires |a| == |b|
    ensures Before(a + [x], b + [y]) <==> Before(a, b) || (a == b && x < y)
  {
    if a != [] {
      assert (a + [x])[1..] == a[1..] + [x] && (b + [y])[1..] == b[1..] + [y];
      BeforeLast(a[1..], b[1..], x, y);
      assert a == [a[0]] + a[1..] && b == [b[0]] + b[1..];
    }
  }

  /** Big-endian keys are walked through in numeric order. */
  lemma {:induction false} BigEndianOrder(m: nat, n: nat, w: nat)
    requires m < Power(w) && n < Power(w)
    ensures Before(BigEndian(m, w), BigEndian(n, w)) <==> m < n
  {
    if w != 0 {
      BigEndianOrder(m / 256, n / 256, w - 1);
      BeforeLast(BigEndian(m / 256, w - 1), BigEndian(n / 256, w - 1), (m % 256) as Octet, (n % 256) as Octet);
      if BigEndian(m / 256, w - 1) == BigEndian(n / 256, w - 1) {
        NumberOfBigEndian(m / 256, w - 1);
        NumberOfBigEndian(n / 256, w - 1);
      }
    }
  }

  // ---------------------------------------------------------------- spools

  type SpoolId = Bytes
  type PublicKey = Bytes

  const ID_SIZE := 4
  const ID_LIMIT := 0x1_0000_0000

  datatype SpoolEntry = SpoolEntry(payload: Bytes, dirty: bool)

  datatype MemSpool = MemSpool(publicKey: PublicKey, items: map<nat, SpoolEntry>, current: nat)

  function Put(sp: MemSpool, id: nat, message: Bytes, dirty: bool): MemSpool {
    sp.(items := sp.items[id := SpoolEntry(message, dirty)])
  }

  /** The counter is an unsigned 32-bit integer. */
  function Append(sp: MemSpool, message: Bytes): MemSpool {
    var id := (sp.current + 1) % ID_LIMIT;
    Put(sp.(current := id), id, message, true)
  }

  function Get(sp: MemSpool, id: nat): Option<Bytes> {
    if id in sp.items then Some(sp.items[id].payload) else None
  }

  /** The spool with everything written back. */
  function Clean(sp: MemSpool): MemSpool {
    sp.(items := map id | id in sp.items :: SpoolEntry(sp.items[id].payload, false))
  }

  // ---------------------------------------------------------------- the database

  /** A spool in the database: its public key and its messages by big-endian identifier. */
  datatype Bucket = Bucket(publicKey: PublicKey, messages: map<Key, Bytes>)

  function DirtyKeys(sp: MemSpool): set<Key> {
    set id | id in sp.items && sp.items[id].dirty :: BigEndian(id, ID_SIZE)
  }

  predicate Numbered(sp: MemSpool) {
    forall id | id in sp.items :: id < ID_LIMIT
  }

  lemma KeyOf(id: nat)
    requires id < ID_LIMIT
    ensures Number(BigEndian(id, ID_SIZE)) == id
  {
    PowerOfIdSize();
    NumberOfBigEndian(id, ID_SIZE);
  }

  lemma PowerOfIdSize()
    ensures Power(ID_SIZE) == ID_LIMIT
  {
    assert Power(2) == 65536;
    assert Power(4) == 256 * (256 * Power(2));
  }

  lemma DirtyKeyNumbers(sp: MemSpool)
    requires Numbered(sp)
    ensures forall k | k in DirtyKeys(sp) :: Number(k) in sp.items && sp.items[Number(k)].dirty
  {
    forall k | k in DirtyKeys(sp) ensures Number(k) in sp.items && sp.items[Number(k)].dirty {
      var id :| id in sp.items && sp.items[id].dirty && k == BigEndian(id, ID_SIZE);
      KeyOf(id);
    }
  }

  /** The bucket after the dirty entries were written back. */
  function Flushed(b: Bucket, sp: MemSpool): Bucket
    requires Numbered(sp)
  {
    DirtyKeyNumbers(sp);
    b.(messages := b.messages + map k | k in DirtyKeys(sp) :: sp.items[Number(k)].payload)
  }

  /** The order in which the store walks through a bucket. */
  predicate Walks(cursor: seq<Key>, messages: map<Key, Bytes>) {
    && (forall i, j :: 0 <= i < j < |cursor| ==> Before(cursor[i], cursor[j]))
    && (forall k | k in messages :: k in cursor) && (forall k | k in cursor :: k in messages)
  }

  /** Every key is a message identifier. */
  predicate WellKeyed(b: Bucket) {
    forall k | k in b.messages :: |k| == ID_SIZE
  }

  /** The numbers of the first n keys walked through. */
  function Numbers(cursor: seq<Key>): set<nat> {
    set i | 0 <= i < |cursor| :: Number(cursor[i])
  }

  /** What loading makes of a bucket. */
  function Loaded(b: Bucket, cursor: seq<Key>): MemSpool
    requires WellKeyed(b) && Walks(cursor, b.messages)
  {
    LoadedKeys(b, cursor);
    MemSpool(b.publicKey,
             map id | id in Numbers(cursor) :: SpoolEntry(b.messages[BigEndian(id, ID_SIZE)], false),
             if cursor == [] then 0 else Number(cursor[|cursor| - 1]))
  }

  lemma LoadedKeys(b: Bucket, cursor: seq<Key>)
    requires WellKeyed(b) && Walks(cursor, b.messages)
    ensures forall id | id in Numbers(cursor) :: BigEndian(id, ID_SIZE) in b.messages
  {
    forall id | id in Numbers(cursor) ensures BigEndian(id, ID_SIZE) in b.messages {
      var i :| 0 <= i < |cursor| && id == Number(cursor[i]);
      assert cursor[i] in b.messages;
      BigEndianOfNumber(cursor[i]);
    }
  }

  // ---------------------------------------------------------------- flushing and loading agree

  ghost predicate Contiguous(sp: MemSpool) {
    sp.current < ID_LIMIT && forall id :: id in sp.items <==> 1 <= id <= sp.current
  }

  /** What is clean is in the bucket. */
  ghost predicate Written(sp: MemSpool, b: Bucket) {
    forall id | id in sp.items && !sp.items[id].dirty :: BigEndian(id, ID_SIZE) in b.messages
  }

  ghost predicate Wholly(sp: MemSpool, b: Bucket) {
    forall id | id in sp.items :: BigEndian(id, ID_SIZE) in b.messages
  }

  /** The bucket holds nothing but what is in the spool. */
  ghost predicate Recorded(sp: MemSpool, b: Bucket) {
    forall k | k in b.messages ::
      |k| == ID_SIZE && Number(k) in sp.items && b.messages[k] == sp.items[Number(k)].payload
  }

  /** A spool and its bucket in a run without purges. */
  ghost predicate Sound(sp: MemSpool, b: Bucket) {
    b.publicKey == sp.publicKey && Contiguous(sp) && Written(sp, b) && Recorded(sp, b)
  }

  /** After a flush everything is in the bucket. */
  lemma FlushedHolds(sp: MemSpool, b: Bucket)
    requires Sound(sp, b)
    ensures Contiguous(Clean(sp)) && Wholly(Clean(sp), Flushed(b, sp)) && Recorded(Clean(sp), Flushed(b, sp))
    ensures Flushed(b, sp).publicKey == b.publicKey
  {
    FlushedWholly(sp, b);
    FlushedRecorded(sp, b);
  }

  lemma FlushedWholly(sp: MemSpool, b: Bucket)
    requires Numbered(sp) && Written(sp, b)
    ensures Wholly(Clean(sp), Flushed(b, sp))
  {
    hide BigEndian, Number;
    DirtyKeyNumbers(sp);
    forall id | id in sp.items ensures BigEndian(id, ID_SIZE) in Flushed(b, sp).messages {
      if sp.items[id].dirty {
        assert BigEndian(id, ID_SIZE) in DirtyKeys(sp);
      }
    }
  }

  lemma FlushedRecorded(sp: MemSpool, b: Bucket)
    requires Numbered(sp) && Recorded(sp, b)
    ensures Recorded(Clean(sp), Flushed(b, sp))
  {
    hide BigEndian, Number, Power;
    DirtyKeyNumbers(sp);
    assert forall k | k in DirtyKeys(sp) :: |k| == ID_SIZE;
    hide DirtyKeys;
  }

  /** The last key walked through is that of the newest message. */
  lemma LastIsNewest(sp: MemSpool, b: Bucket, cursor: seq<Key>)
    requires Contiguous(sp) && Wholly(sp, b) && Recorded(sp, b) && Walks(cursor, b.messages)
    ensures sp.current == if cursor == [] then 0 else Number(cursor[|cursor| - 1])
  {
    hide BigEndian, Number, Before, Power, Recorded, Wholly;
    if cursor != [] {
      var last := cursor[|cursor| - 1];
      InBucket(sp, b, last);
      NewestAtEnd(sp, b, cursor, last);
    } else if sp.current != 0 {
      assert sp.current in sp.items;
      ItemInBucket(sp, b, sp.current);
    }
  }

  lemma WhollyWritten(sp: MemSpool, b: Bucket)
    requires Wholly(sp, b)
    ensures Written(sp, b)
  {
    hide BigEndian;
  }

  lemma InBucket(sp: MemSpool, b: Bucket, k: Key)
    requires Recorded(sp, b) && k in b.messages
    ensures |k| == ID_SIZE && Number(k) in sp.items && b.messages[k] == sp.items[Number(k)].payload
  {}

  lemma ItemInBucket(sp: MemSpool, b: Bucket, id: nat)
    requires Wholly(sp, b) && id in sp.items
    ensures BigEndian(id, ID_SIZE) in b.messages
  {}

  lemma NewestAtEnd(sp: MemSpool, b: Bucket, cursor: seq<Key>, last: Key)
    requires Contiguous(sp) && Wholly(sp, b) && Walks(cursor, b.messages)
    requires cursor != [] && last == cursor[|cursor| - 1] && |last| == ID_SIZE && Number(last) in sp.items
    ensures Number(last) == sp.current
  {
    hide BigEndian, Number, Before, Power, Wholly;
    var k := BigEndian(sp.current, ID_SIZE);
    assert sp.current in sp.items;
    ItemInBucket(sp, b, sp.current);
    var i :| 0 <= i < |cursor| && cursor[i] == k;
    BigEndianOfNumber(last);
    KeyOf(sp.current);
    PowerOfIdSize();
    BigEndianOrder(sp.current, Number(last), ID_SIZE);
    assert i < |cursor| - 1 ==> Before(k, last);
  }

  lemma NumbersAreItems(sp: MemSpool, b: Bucket, cursor: seq<Key>, id: nat)
    requires Contiguous(sp) && Wholly(sp, b) && Recorded(sp, b) && Walks(cursor, b.messages)
    ensures id in Numbers(cursor) <==> id in sp.items
  {
    hide BigEndian, Number, Before, Recorded, Wholly;
    if id in Numbers(cursor) {
      var i :| 0 <= i < |cursor| && id == Number(cursor[i]);
      InBucket(sp, b, cursor[i]);
    }
    if id in sp.items {
      var k := BigEndian(id, ID_SIZE);
      KeyOf(id);
      ItemInBucket(sp, b, id);
      var i :| 0 <= i < |cursor| && cursor[i] == k;
      assert Number(cursor[i]) == id;
    }
  }

  /** Loading gives back a spool that is wholly in its bucket. */
  lemma LoadedIsSpool(sp: MemSpool, b: Bucket, cursor: seq<Key>)
    requires b.publicKey == sp.publicKey && Contiguous(sp) && Wholly(sp, b) && Recorded(sp, b)
    requires Walks(cursor, b.messages) && Clean(sp) == sp
    ensures WellKeyed(b) && Loaded(b, cursor) == sp
  {
    hide BigEndian, Number, Before, Walks, Wholly, Contiguous, Clean;
    assert WellKeyed(b);
    hide Recorded;
    LastIsNewest(sp, b, cursor);
    LoadedKeys(b, cursor);
    ItemsBack(sp, b, cursor);
  }

  lemma ItemsBack(sp: MemSpool, b: Bucket, cursor: seq<Key>)
    requires Contiguous(sp) && Wholly(sp, b) && Recorded(sp, b) && WellKeyed(b)
    requires Walks(cursor, b.messages) && Clean(sp) == sp
    ensures Loaded(b, cursor).items == sp.items
  {
    hide BigEndian, Number, Before, Walks, Wholly, Contiguous, Clean, Recorded;
    LoadedKeys(b, cursor);
    forall id ensures id in Numbers(cursor) <==> id in sp.items { NumbersAreItems(sp, b, cursor, id); }
    hide Numbers, WellKeyed;
    forall id | id in sp.items
      ensures BigEndian(id, ID_SIZE) in b.messages && SpoolEntry(b.messages[BigEndian(id, ID_SIZE)], false) == sp.items[id]
    {
      EntryBack(sp, b, id);
    }
  }

  lemma EntryBack(sp: MemSpool, b: Bucket, id: nat)
    requires Contiguous(sp) && Wholly(sp, b) && Recorded(sp, b) && Clean(sp) == sp && id in sp.items
    ensures BigEndian(id, ID_SIZE) in b.messages && SpoolEntry(b.messages[BigEndian(id, ID_SIZE)], false) == sp.items[id]
  {
    hide BigEndian, Number, Wholly, Recorded;
    KeyOf(id);
    ItemInBucket(sp, b, id);
    InBucket(sp, b, BigEndian(id, ID_SIZE));
    assert Clean(sp).items[id] == SpoolEntry(sp.items[id].payload, false);
  }

  /** Flushing a spool and loading it again gives every entry back, and the counter. */
  lemma FlushThenLoad(sp: MemSpool, b: Bucket, cursor: seq<Key>)
    requires Sound(sp, b) && Walks(cursor, Flushed(b, sp).messages)
    ensures WellKeyed(Flushed(b, sp)) && Loaded(Flushed(b, sp), cursor) == Clean(sp)
  {
    FlushedHolds(sp, b);
    CleanTwice(sp);
    hide BigEndian, Number, Before, Walks, Loaded, Recorded, Wholly, Written, Contiguous;
    LoadedIsSpool(Clean(sp), Flushed(b, sp), cursor);
  }

  lemma CleanTwice(sp: MemSpool)
    ensures Clean(Clean(sp)) == Clean(sp)
  {}

  /** Appending keeps the spool sound until the counter is used up. */
  lemma AppendSound(sp: MemSpool, b: Bucket, message: Bytes)
    requires Sound(sp, b) && sp.current + 1 < ID_LIMIT
    ensures Sound(Append(sp, message), b)
  {
    hide Written, Recorded;
    assert Contiguous(Append(sp, message));
    AppendWritten(sp, b, message);
    AppendRecorded(sp, b, message);
  }

  /** Appending keeps the spool sound exactly until the counter is used up: the next identifier would be 0. */
  lemma AppendSoundIff(sp: MemSpool, b: Bucket, message: Bytes)
    requires Sound(sp, b)
    ensures Sound(Append(sp, message), b) <==> sp.current + 1 < ID_LIMIT
  {
    if sp.current + 1 < ID_LIMIT {
      AppendSound(sp, b, message);
    } else {
      hide Written, Recorded;
      assert 0 in Append(sp, message).items;
    }
  }

  lemma AppendWritten(sp: MemSpool, b: Bucket, message: Bytes)
    requires Written(sp, b)
    ensures Written(Append(sp, message), b)
  {
    hide BigEndian;
  }

  lemma AppendRecorded(sp: MemSpool, b: Bucket, message: Bytes)
    requires Recorded(sp, b) && Contiguous(sp) && sp.current + 1 < ID_LIMIT
    ensures Recorded(Append(sp, message), b)
  {
    hide Number;
    assert sp.current + 1 !in sp.items;
  }

  // ---------------------------------------------------------------- what a spool holds

  /** The spool holds exactly these messages, numbered from 1. */
  ghost predicate Holds(sp: MemSpool, messages: seq<Bytes>) {
    && sp.current == |messages|
    && forall i: nat :: Get(sp, i) == if 1 <= i <= |messages| then Some(messages[i - 1]) else None
  }

  lemma AppendHolds(sp: MemSpool, messages: seq<Bytes>, message: Bytes)
    requires Holds(sp, messages) && sp.current + 1 < ID_LIMIT
    ensures Holds(Append(sp, message), messages + [message])
  {
    forall i: nat
      ensures Get(Append(sp, message), i) ==
              if 1 <= i <= |messages| + 1 then Some((messages + [message])[i - 1]) else None
    {
      assert Get(sp, i) == if 1 <= i <= |messages| then Some(messages[i - 1]) else None;
    }
  }

  lemma CleanHolds(sp: MemSpool, messages: seq<Bytes>)
    requires Holds(sp, messages)
    ensures Holds(Clean(sp), messages)
  {
    forall i: nat ensures Get(Clean(sp), i) == Get(sp, i) {}
  }
}
