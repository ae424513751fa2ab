/** The spool map of memspool/server/spool.go and its database, and what holds in every run without purges. */
module SpoolServer {
  import opened Bytes
  import opened SpoolStore
  import opened Wrappers

  datatype Store = Store(spools: map<SpoolId, MemSpool>, db: map<SpoolId, Bucket>)

  const Empty := Store(map[], map[])

  datatype Error = InvalidSignature | NoSuchSpool | NoSuchMessage | InvalidMessageId

  /** CreateSpool, for a request with a valid signature. */
  function Create(s: Store, id: SpoolId, key: PublicKey): Store {
    if id in s.spools then s
    else Store(s.spools[id := MemSpool(key, map[], 0)], s.db[id := Bucket(key, map[])])
  }

  function AppendTo(s: Store, id: SpoolId, message: Bytes): Store {
    if id in s.spools then s.(spools := s.spools[id := Append(s.spools[id], message)]) else s
  }

  function Read(s: Store, id: SpoolId, signed: bool, messageId: nat): Result<Bytes, Error> {
    if id !in s.spools then Failure(NoSuchSpool)
    else if !signed then Failure(InvalidSignature)
    else
      match Get(s.spools[id], messageId)
      case None => Failure(NoSuchMessage)
      case Some(payload) => Success(payload)
  }

  predicate Flushable(s: Store) {
    forall id | id in s.spools :: id in s.db && Numbered(s.spools[id])
  }

  function Flush(s: Store): Store
    requires Flushable(s)
  {
    Store(map id | id in s.spools :: Clean(s.spools[id]),
          map id | id in s.db :: if id in s.spools then Flushed(s.db[id], s.spools[id]) else s.db[id])
  }

  /** How the store walks through each bucket. */
  type Cursors = map<SpoolId, seq<Key>>

  predicate WalkAll(cursors: Cursors, db: map<SpoolId, Bucket>) {
    forall id | id in db :: id in cursors && Walks(cursors[id], db[id].messages)
  }

  predicate Loadable(db: map<SpoolId, Bucket>) {
    forall id | id in db :: WellKeyed(db[id])
  }

  function Load(db: map<SpoolId, Bucket>, cursors: Cursors): Store
    requires Loadable(db) && WalkAll(cursors, db)
  {
    Store(map id | id in db :: Loaded(db[id], cursors[id]), db)
  }

  // ---------------------------------------------------------------- runs

  /** The messages appended to each spool, in order. */
  type History = map<SpoolId, seq<Bytes>>

  ghost predicate Inv(s: Store, h: History) {
    && s.db.Keys == s.spools.Keys == h.Keys
    && forall id | id in s.spools :: Sound(s.spools[id], s.db[id]) && Holds(s.spools[id], h[id])
  }

  datatype Event =
    | CreateEvent(id: SpoolId, key: PublicKey)
    | AppendEvent(id: SpoolId, message: Bytes)
    | FlushEvent
    | RestartEvent(cursors: Cursors)

  /** A restart flushes, closes the database and loads it again; counters do not run over. */
  ghost predicate Enabled(s: Store, ev: Event) {
    match ev
    case CreateEvent(_, _) => true
    case AppendEvent(id, _) => id in s.spools ==> s.spools[id].current + 1 < ID_LIMIT
    case FlushEvent => Flushable(s)
    case RestartEvent(cursors) => Flushable(s) && WalkAll(cursors, Flush(s).db) && Loadable(Flush(s).db)
  }

  ghost function Step(s: Store, ev: Event): Store
    requires Enabled(s, ev)
  {
    match ev
    case CreateEvent(id, key) => Create(s, id, key)
    case AppendEvent(id, message) => AppendTo(s, id, message)
    case FlushEvent => Flush(s)
    case RestartEvent(cursors) => Load(Flush(s).db, cursors)
  }

  ghost function Note(h: History, ev: Event): History {
    match ev
    case CreateEvent(id, _) => if id in h then h else h[id := []]
    case AppendEvent(id, message) => if id in h then h[id := h[id] + [message]] else h
    case FlushEvent => h
    case RestartEvent(_) => h
  }

  lemma SoundFlushes(s: Store, h: History)
    requires Inv(s, h)
    ensures Flushable(s)
  {
    hide Written, Recorded, Holds;
  }

  lemma CleanSound(sp: MemSpool, b: Bucket, messages: seq<Bytes>)
    requires Sound(sp, b) && Holds(sp, messages)
    ensures Sound(Clean(sp), Flushed(b, sp)) && Holds(Clean(sp), messages)
  {
    hide Wholly, Written, Recorded, Flushed, Holds;
    assert Numbered(sp);
    hide Contiguous;
    FlushedHolds(sp, b);
    WhollyWritten(Clean(sp), Flushed(b, sp));
    CleanHolds(sp, messages);
  }

  lemma FlushInv(s: Store, h: History)
    requires Inv(s, h)
    ensures Flushable(s) && Inv(Flush(s), h)
  {
    hide Sound, Holds, Clean, Flushed;
    assert Flushable(s) by { SoundFlushes(s, h); }
    forall id | id in s.spools
      ensures Sound(Clean(s.spools[id]), Flushed(s.db[id], s.spools[id])) && Holds(Clean(s.spools[id]), h[id])
    {
      CleanSound(s.spools[id], s.db[id], h[id]);
    }
  }

  /** Restarting gives back every spool, entry for entry, and its counter. */
  lemma RestartKeepsSpools(s: Store, h: History, cursors: Cursors)
    requires Inv(s, h) && Flushable(s) && WalkAll(cursors, Flush(s).db)
    ensures Loadable(Flush(s).db) && Load(Flush(s).db, cursors) == Flush(s)
  {
    hide Sound, Holds, Clean, Flushed, Walks, WellKeyed, Loaded;
    forall id | id in Flush(s).db
      ensures WellKeyed(Flush(s).db[id]) && Loaded(Flush(s).db[id], cursors[id]) == Flush(s).spools[id]
    {
      FlushThenLoad(s.spools[id], s.db[id], cursors[id]);
    }
  }

  lemma StepInv(s: Store, h: History, ev: Event)
    requires Inv(s, h) && Enabled(s, ev)
    ensures Inv(Step(s, ev), Note(h, ev))
  {
    hide Written, Recorded, BigEndian, Number;
    match ev
    case CreateEvent(id, key) =>
      CreateInv(s, h, id, key);
    case AppendEvent(id, message) =>
      AppendInv(s, h, id, message);
    case FlushEvent =>
      FlushInv(s, h);
    case RestartEvent(cursors) =>
      FlushInv(s, h);
      RestartKeepsSpools(s, h, cursors);
  }

  lemma CreateInv(s: Store, h: History, id: SpoolId, key: PublicKey)
    requires Inv(s, h)
    ensures Inv(Create(s, id, key), Note(h, CreateEvent(id, key)))
  {
    assert Sound(MemSpool(key, map[], 0), Bucket(key, map[])) && Holds(MemSpool(key, map[], 0), []);
    hide Sound, Holds;
  }

  lemma AppendInv(s: Store, h: History, id: SpoolId, message: Bytes)
    requires Inv(s, h) && (id in s.spools ==> s.spools[id].current + 1 < ID_LIMIT)
    ensures Inv(AppendTo(s, id, message), Note(h, AppendEvent(id, message)))
  {
    if id in s.spools {
      AppendSound(s.spools[id], s.db[id], message);
      AppendHolds(s.spools[id], h[id], message);
      hide Sound, Holds, Append;
    }
  }

  ghost function Histories(events: seq<Event>): History {
    if events == [] then map[] else Note(Histories(events[..|events| - 1]), events[|events| - 1])
  }

  ghost predicate Run(states: seq<Store>, events: seq<Event>) {
    && |states| == |events| + 1 && states[0] == Empty
    && forall i :: 0 <= i < |events| ==> Enabled(states[i], events[i]) && states[i + 1] == Step(states[i], events[i])
  }

  lemma {:induction false} RunInv(states: seq<Store>, events: seq<Event>, i: nat)
    requires Run(states, events) && i < |states|
    ensures Inv(states[i], Histories(events[..i]))
  {
    hide Inv, Step, Enabled, Note;
    if i == 0 {
      assert events[..0] == [];
      assert Inv(Empty, map[]) by { EmptyInv(); }
    } else {
      RunInv(states, events, i - 1);
      assert Enabled(states[i - 1], events[i - 1]) && states[i] == Step(states[i - 1], events[i - 1]);
      assert events[..i][..i - 1] == events[..i - 1] && events[..i][i - 1] == events[i - 1];
      StepInv(states[i - 1], Histories(events[..i - 1]), events[i - 1]);
      assert Histories(events[..i]) == Note(Histories(events[..i - 1]), events[i - 1]);
    }
  }

  lemma EmptyInv()
    ensures Inv(Empty, map[])
  {}

  /** In every run, across flushes and restarts, message i of a spool is the i-th that was appended to it, and
      reading any other identifier, or without a valid signature, fails. */
  lemma ReadsWhatWasAppended(states: seq<Store>, events: seq<Event>, i: nat, id: SpoolId, signed: bool, messageId: nat)
    requires Run(states, events) && i < |states|
    ensures var h := Histories(events[..i]);
            Read(states[i], id, signed, messageId) ==
            if id !in h then Failure(NoSuchSpool)
            else if !signed then Failure(InvalidSignature)
            else if 1 <= messageId <= |h[id]| then Success(h[id][messageId - 1]) else Failure(NoSuchMessage)
  {
    RunInv(states, events, i);
    hide Written, Recorded, Run, Histories;
  }

  // ---------------------------------------------------------------- the object

  class MemSpoolMap {
    var spools: map<SpoolId, MemSpool>
    var db: map<SpoolId, Bucket>

    ghost function Contents(): Store
      reads this
    {
      Store(spools, db)
    }

    constructor ()
      ensures Contents() == Empty
    {
      spools, db := map[], map[];
    }

    /** CreateSpool; a spool that exists is left alone. */
    method CreateSpool(id: SpoolId, key: PublicKey, signed: bool) returns (r: Result<SpoolId, Error>)
      modifies this
      ensures Contents() == if signed then Create(old(Contents()), id, key) else old(Contents())
      ensures r == if signed then Success(id) else Failure(InvalidSignature)
    {
      if !signed {
        return Failure(InvalidSignature);
      }
      if id !in spools {
        spools := spools[id := MemSpool(key, map[], 0)];
        db := db[id := Bucket(key, map[])];
      }
      r := Success(id);
    }

    /** AppendToSpool */
    method AppendToSpool(id: SpoolId, message: Bytes) returns (ok: bool)
      modifies this
      ensures Contents() == AppendTo(old(Contents()), id, message)
      ensures ok <==> id in old(spools)
    {
      ok := id in spools;
      if ok {
        var spool := spools[id];
        spool := spool.(current := (spool.current + 1) % ID_LIMIT);
        spool := spool.(items := spool.items[spool.current := SpoolEntry(message, true)]);
        spools := spools[id := spool];
      }
    }

    /** ReadFromSpool */
    method ReadFromSpool(id: SpoolId, signed: bool, messageId: nat) returns (r: Result<Bytes, Error>)
      ensures r == Read(Contents(), id, signed, messageId)
    {
      if id !in spools {
        return Failure(NoSuchSpool);
      }
      if !signed {
        return Failure(InvalidSignature);
      }
      if messageId !in spools[id].items {
        return Failure(NoSuchMessage);
      }
      r := Success(spools[id].items[messageId].payload);
    }

    /** The dirty entries of one spool are written to its bucket and marked clean. */
    method FlushSpool(sp: MemSpool, b: Bucket) returns (spool: MemSpool, bucket: Bucket)
      requires Numbered(sp)
      ensures spool == Clean(sp) && bucket == Flushed(b, sp)
    {
      hide WrittenFor, CleanedFor, Clean, Flushed, Numbered, BigEndian;
      spool, bucket := sp, b;
      var todo := sp.items.Keys;
      NoneWritten(sp, b);
      while todo != {}
        invariant todo <= sp.items.Keys && CleanedFor(sp, todo, spool)
        invariant bucket == b.(messages := bucket.messages) && WrittenFor(sp, b, todo, bucket.messages)
        decreases |todo|
      {
        var id :| id in todo;
        CleanOne(sp, todo, spool, id);
        WriteOne(sp, b, todo, bucket.messages, id);
        var entry := spool.items[id];
        if entry.dirty {
          bucket := bucket.(messages := bucket.messages[BigEndian(id, ID_SIZE) := entry.payload]);
          spool := Put(spool, id, entry.payload, false);
        }
        todo := todo - {id};
      }
      AllWritten(sp, b, bucket.messages);
      AllClean(sp, spool);
    }

    /** doFlush */
    method DoFlush()
      requires Flushable(Contents())
      modifies this
      ensures Contents() == Flush(old(Contents()))
    {
      hide Flushed, Clean, Flush, FlushedFor, Numbered;
      ghost var was := Contents();
      var todo := spools.Keys;
      NoneFlushed(was);
      while todo != {}
        invariant todo <= spools.Keys && FlushedFor(was, Contents(), todo)
        decreases |todo|
      {
        var id :| id in todo;
        FlushOne(was, Contents(), todo, id);
        var spool, bucket := FlushSpool(spools[id], db[id]);
        spools, db := spools[id := spool], db[id := bucket];
        todo := todo - {id};
      }
      AllFlushed(was, Contents());
    }

    /** load, for one bucket of the database. */
    method LoadSpool(b: Bucket, cursor: seq<Key>) returns (r: Result<MemSpool, Error>)
      requires Walks(cursor, b.messages)
      ensures r == if WellKeyed(b) then Success(Loaded(b, cursor)) else Failure(InvalidMessageId)
    {
      var sp := MemSpool(b.publicKey, map[], 0);
      for i := 0 to |cursor|
        invariant forall j :: 0 <= j < i ==> |cursor[j]| == ID_SIZE
        invariant sp == MemSpool(b.publicKey, sp.items, 0) && LoadedTo(b, cursor, i, sp.items)
      {
        var k := cursor[i];
        if |k| != ID_SIZE {
          assert k in b.messages;
          return Failure(InvalidMessageId);
        }
        LoadOne(b, cursor, i, sp.items);
        sp := Put(sp, Number(k), b.messages[k], false);
      }
      AllLoaded(b, cursor, sp.items);
      if cursor != [] {
        sp := sp.(current := Number(cursor[|cursor| - 1]));
      }
      r := Success(sp);
    }

    /** load: the spools of the database, or an error if a key is no message identifier. */
    method LoadAll(cursors: Cursors) returns (ok: bool)
      requires WalkAll(cursors, db)
      modifies this
      ensures ok <==> Loadable(old(db))
      ensures db == old(db) && (ok ==> Contents() == Load(old(db), cursors))
    {
      hide Loaded, Walks, WellKeyed, LoadedFor, Load;
      spools := map[];
      var todo := db.Keys;
      NoneLoaded(db, cursors);
      while todo != {}
        invariant todo <= db.Keys && db == old(db) && LoadedFor(db, cursors, todo, spools)
        decreases |todo|
      {
        var id :| id in todo;
        var r := LoadSpool(db[id], cursors[id]);
        if r.Failure? {
          return false;
        }
        LoadOneSpool(db, cursors, todo, spools, id);
        spools := spools[id := r.value];
        todo := todo - {id};
      }
      AllSpoolsLoaded(db, cursors, spools);
      ok := true;
    }
  }

  /** Every spool not in `todo` was loaded, and its bucket is well-formed. */
  ghost predicate LoadedFor(db: map<SpoolId, Bucket>, cursors: Cursors, todo: set<SpoolId>, spools: map<SpoolId, MemSpool>) {
    && WalkAll(cursors, db) && spools.Keys == db.Keys - todo
    && forall id | id in spools :: WellKeyed(db[id]) && spools[id] == Loaded(db[id], cursors[id])
  }

  lemma NoneLoaded(db: map<SpoolId, Bucket>, cursors: Cursors)
    requires WalkAll(cursors, db)
    ensures LoadedFor(db, cursors, db.Keys, map[])
  {}

  lemma LoadOneSpool(db: map<SpoolId, Bucket>, cursors: Cursors, todo: set<SpoolId>, spools: map<SpoolId, MemSpool>,
                     id: SpoolId)
    requires LoadedFor(db, cursors, todo, spools) && id in todo && id in db && id in cursors && WellKeyed(db[id])
    ensures Walks(cursors[id], db[id].messages)
    ensures LoadedFor(db, cursors, todo - {id}, spools[id := Loaded(db[id], cursors[id])])
  {
    hide Loaded, Walks, WellKeyed;
  }

  lemma AllSpoolsLoaded(db: map<SpoolId, Bucket>, cursors: Cursors, spools: map<SpoolId, MemSpool>)
    requires LoadedFor(db, cursors, {}, spools)
    ensures WalkAll(cursors, db) && Loadable(db) && Store(spools, db) == Load(db, cursors)
  {
    hide Loaded, Walks, WellKeyed;
  }

  /** All spools but those in `todo` were flushed. */
  ghost predicate FlushedFor(was: Store, now: Store, todo: set<SpoolId>)
  {
    && Flushable(was) && todo <= was.spools.Keys && now.spools.Keys == was.spools.Keys && now.db.Keys == was.db.Keys
    && (forall id | id in todo :: now.spools[id] == was.spools[id])
    && (forall id | id in was.db && (id in todo || id !in was.spools) :: now.db[id] == was.db[id])
    && (forall id | id in was.spools && id !in todo ::
          now.spools[id] == Clean(was.spools[id]) && now.db[id] == Flushed(was.db[id], was.spools[id]))
  }

  lemma NoneFlushed(s: Store)
    requires Flushable(s)
    ensures FlushedFor(s, s, s.spools.Keys)
  {}

  lemma FlushOne(was: Store, now: Store, todo: set<SpoolId>, id: SpoolId)
    requires FlushedFor(was, now, todo) && id in todo
    ensures id in now.db && Numbered(now.spools[id])
    ensures FlushedFor(was, Store(now.spools[id := Clean(now.spools[id])], now.db[id := Flushed(now.db[id], now.spools[id])]),
                       todo - {id})
  {
    hide Flushed, Clean, Numbered;
  }

  lemma AllFlushed(was: Store, now: Store)
    requires FlushedFor(was, now, {})
    ensures now == Flush(was)
  {
    hide Flushed, Clean, Numbered;
  }

  /** The messages of the bucket when all but the entries `todo` were looked at. */
  ghost predicate WrittenFor(sp: MemSpool, b: Bucket, todo: set<nat>, messages: map<Key, Bytes>)
    requires Numbered(sp)
  {
    var done := DoneKeys(sp, todo);
    && messages.Keys == b.messages.Keys + done
    && forall k | k in messages ::
      messages[k] == if k in done then PayloadOf(sp, k) else if k in b.messages then b.messages[k] else []
  }

  ghost function DoneKeys(sp: MemSpool, todo: set<nat>): set<Key> {
    set id | id in sp.items && id !in todo && sp.items[id].dirty :: BigEndian(id, ID_SIZE)
  }

  ghost function PayloadOf(sp: MemSpool, k: Key): Bytes {
    if Number(k) in sp.items then sp.items[Number(k)].payload else []
  }

  /** The entries of the spool but those in `todo` are marked clean. */
  ghost predicate CleanedFor(sp: MemSpool, todo: set<nat>, spool: MemSpool) {
    && spool == sp.(items := spool.items) && spool.items.Keys == sp.items.Keys
    && (forall id | id in sp.items && id in todo :: spool.items[id] == sp.items[id])
    && (forall id | id in sp.items && id !in todo :: spool.items[id] == SpoolEntry(sp.items[id].payload, false))
  }

  lemma NoneWritten(sp: MemSpool, b: Bucket)
    requires Numbered(sp)
    ensures CleanedFor(sp, sp.items.Keys, sp) && WrittenFor(sp, b, sp.items.Keys, b.messages)
  {
    hide BigEndian, Number;
    assert DoneKeys(sp, sp.items.Keys) == {};
  }

  lemma CleanOne(sp: MemSpool, todo: set<nat>, spool: MemSpool, id: nat)
    requires id in sp.items && id in todo && CleanedFor(sp, todo, spool)
    ensures id in spool.items && spool.items[id] == sp.items[id]
    ensures CleanedFor(sp, todo - {id},
                       if sp.items[id].dirty then Put(spool, id, sp.items[id].payload, false) else spool)
  {}

  lemma AllClean(sp: MemSpool, spool: MemSpool)
    requires CleanedFor(sp, {}, spool)
    ensures spool == Clean(sp)
  {
    assert spool.items == Clean(sp).items;
  }

  lemma DoneGrows(sp: MemSpool, todo: set<nat>, id: nat)
    requires id in sp.items && id in todo
    ensures DoneKeys(sp, todo - {id})
            == if sp.items[id].dirty then DoneKeys(sp, todo) + {BigEndian(id, ID_SIZE)} else DoneKeys(sp, todo)
  {
    hide BigEndian;
  }

  lemma WriteOne(sp: MemSpool, b: Bucket, todo: set<nat>, messages: map<Key, Bytes>, id: nat)
    requires Numbered(sp) && id in sp.items && id in todo && WrittenFor(sp, b, todo, messages)
    ensures WrittenFor(sp, b, todo - {id},
                       if sp.items[id].dirty then messages[BigEndian(id, ID_SIZE) := sp.items[id].payload] else messages)
  {
    hide BigEndian, Number, DoneKeys;
    KeyOf(id);
    DoneGrows(sp, todo, id);
  }

  lemma AllWritten(sp: MemSpool, b: Bucket, messages: map<Key, Bytes>)
    requires Numbered(sp) && WrittenFor(sp, b, {}, messages)
    ensures b.(messages := messages) == Flushed(b, sp)
  {
    hide BigEndian, Number;
    DirtyKeyNumbers(sp);
    AllDone(sp);
    hide DoneKeys, DirtyKeys, Numbered;
  }

  lemma AllDone(sp: MemSpool)
    ensures DoneKeys(sp, {}) == DirtyKeys(sp)
  {
    hide BigEndian;
  }

  ghost predicate LoadedTo(b: Bucket, cursor: seq<Key>, n: nat, items: map<nat, SpoolEntry>)
    requires n <= |cursor|
  {
    && items.Keys == Numbers(cursor[..n])
    && forall j :: 0 <= j < n ==>
         cursor[j] in b.messages && items[Number(cursor[j])] == SpoolEntry(b.messages[cursor[j]], false)
  }

  lemma LoadOne(b: Bucket, cursor: seq<Key>, n: nat, items: map<nat, SpoolEntry>)
    requires n < |cursor| && Walks(cursor, b.messages) && LoadedTo(b, cursor, n, items)
    requires forall j :: 0 <= j <= n ==> |cursor[j]| == ID_SIZE
    ensures LoadedTo(b, cursor, n + 1, items[Number(cursor[n]) := SpoolEntry(b.messages[cursor[n]], false)])
  {
    hide Number, Before;
    assert cursor[n] in b.messages;
    hide Walks;
    NumbersGrow(cursor, n);
    hide Numbers;
    forall j | 0 <= j < n && Number(cursor[j]) == Number(cursor[n]) ensures cursor[j] == cursor[n] {
      NumberTells(cursor[j], cursor[n]);
    }
  }

  lemma NumberTells(k: Key, l: Key)
    requires |k| == |l| && Number(k) == Number(l)
    ensures k == l
  {
    hide Number, BigEndian;
    BigEndianOfNumber(k);
    BigEndianOfNumber(l);
  }

  lemma NumbersGrow(cursor: seq<Key>, n: nat)
    requires n < |cursor|
    ensures Numbers(cursor[..n + 1]) == Numbers(cursor[..n]) + {Number(cursor[n])}
  {
    hide Number;
    var a, c := cursor[..n], cursor[..n + 1];
    forall id | id in Numbers(a) + {Number(cursor[n])} ensures id in Numbers(c) {
      if id == Number(cursor[n]) {
        assert c[n] == cursor[n];
      } else {
        var i :| 0 <= i < |a| && id == Number(a[i]);
        assert c[i] == a[i];
      }
    }
    forall id | id in Numbers(c) ensures id in Numbers(a) + {Number(cursor[n])} {
      var i :| 0 <= i < |c| && id == Number(c[i]);
      assert i < n ==> a[i] == c[i];
    }
  }

  lemma AllLoaded(b: Bucket, cursor: seq<Key>, items: map<nat, SpoolEntry>)
    requires Walks(cursor, b.messages) && LoadedTo(b, cursor, |cursor|, items)
    requires forall j :: 0 <= j < |cursor| ==> |cursor[j]| == ID_SIZE
    ensures WellKeyed(b) && items == Loaded(b, cursor).items
  {
    hide Number, BigEndian, Before;
    assert cursor[..|cursor|] == cursor;
    assert WellKeyed(b);
    LoadedKeys(b, cursor);
    forall id | id in items ensures items[id] == SpoolEntry(b.messages[BigEndian(id, ID_SIZE)], false) {
      var j :| 0 <= j < |cursor| && id == Number(cursor[j]);
      BigEndianOfNumber(cursor[j]);
    }
  }
}
