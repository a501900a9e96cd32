/** The durable log: keys in byte order, load order, and recovery by replay. */
module Recovery {
  import opened Bytes
  import opened Clock
  import opened Wire
  import opened ReplLog
  import opened Sync

  /** (origin, sequence number) order. */
  predicate KeyLess(a: (PeerId, nat), b: (PeerId, nat)) {
    Rank(a.0) < Rank(b.0) || (a.0 == b.0 && a.1 < b.1)
  }

  function KeyOf(f: Frame): (PeerId, nat) {
    (f.stamp.peer, f.seqno)
  }

  /** `frame_key`: the origin followed by the big-endian sequence number. */
  function FrameKey(k: (PeerId, nat)): seq<byte> {
    k.0 + ToBE(k.1, 8)
  }

  /** Byte order of storage keys is (origin, sequence number) order, and keys are unique. */
  lemma FrameKeyOrder(a: (PeerId, nat), b: (PeerId, nat))
    requires a.1 < U64_LIMIT && b.1 < U64_LIMIT
    ensures LexLess(FrameKey(a), FrameKey(b)) <==> KeyLess(a, b)
    ensures FrameKey(a) == FrameKey(b) <==> a == b
  {
    Pow256Values();
    PeerOrder(a.0, b.0);
    BigEndianOrder(a.1, b.1, 8);
    LexConcat(a.0, ToBE(a.1, 8), b.0, ToBE(b.1, 8));
    assert FrameKey(a)[..32] == a.0 && FrameKey(a)[32..] == ToBE(a.1, 8);
    assert FrameKey(b)[..32] == b.0 && FrameKey(b)[32..] == ToBE(b.1, 8);
  }

  /** `load` is the content of `disk` in key order. */
  ghost predicate LoadOf(disk: Disk, load: seq<Frame>) {
    && (forall i, j :: 0 <= i < j < |load| ==> KeyLess(KeyOf(load[i]), KeyOf(load[j])))
    && (forall i :: 0 <= i < |load| ==> KeyOf(load[i]) in disk && disk[KeyOf(load[i])] == load[i])
    && (forall k :: k in disk ==> disk[k] in load)
  }

  /** Frames sit under their own key, and no origin's sequence has a hole. */
  ghost predicate Contiguous(disk: Disk) {
    forall k :: k in disk ==> KeyOf(disk[k]) == k && k.1 >= 1 && (k.1 > 1 ==> (k.0, k.1 - 1) in disk)
  }

  /** The replayed log holds exactly the first `i` loaded frames, from sequence number 1. */
  ghost predicate Holds(log: Log, load: seq<Frame>, i: nat)
    requires i <= |load|
  {
    && log.base == map[]
    && (forall m :: 0 <= m < i ==> load[m].seqno <= Cursor(log, load[m].stamp.peer))
    && (forall o, j :: o in log.observed && 0 <= j < |log.observed[o]| ==>
          KeyOf(log.observed[o][j]) == (o, j + 1) && log.observed[o][j] in load[..i])
  }

  lemma EarlierKey(disk: Disk, load: seq<Frame>, m: nat, i: nat)
    requires LoadOf(disk, load) && m < |load| && i < |load|
    requires KeyLess(KeyOf(load[m]), KeyOf(load[i]))
    ensures m < i
  {
  }

  /** A loaded frame follows what has been replayed: `load` meets no gap. */
  lemma NextInOrder(disk: Disk, load: seq<Frame>, i: nat, log: Log)
    requires Contiguous(disk) && LoadOf(disk, load) && i < |load| && Holds(log, load, i)
    ensures load[i].seqno == Cursor(log, load[i].stamp.peer) + 1
  {
    var o, k := load[i].stamp.peer, load[i].seqno;
    assert (o, k) in disk;
    if k > 1 {
      var m :| 0 <= m < |load| && load[m] == disk[(o, k - 1)];
      EarlierKey(disk, load, m, i);
    }
    var held := Held(log, o);
    if held != [] {
      var last := held[|held| - 1];
      var m :| 0 <= m < i && load[m] == last;
      assert KeyLess(KeyOf(load[m]), KeyOf(load[i]));
    }
  }

  lemma RecordHolds(load: seq<Frame>, i: nat, log: Log)
    requires i < |load| && Holds(log, load, i)
    requires load[i].seqno == Cursor(log, load[i].stamp.peer) + 1
    ensures Holds(Recorded(log, load[i]), load, i + 1)
  {
    var t, p := Recorded(log, load[i]), load[i].stamp.peer;
    PrefixSnoc(load, i);
    forall o, j | o in t.observed && 0 <= j < |t.observed[o]|
      ensures KeyOf(t.observed[o][j]) == (o, j + 1) && t.observed[o][j] in load[..i + 1]
    {
      if o == p && j == |Held(log, p)| {
        assert t.observed[o][j] == load[i];
      } else {
        assert t.observed[o][j] == log.observed[o][j];
      }
    }
  }

  function RecordedAll(frames: seq<Frame>): Log {
    if frames == [] then ReplLog.EMPTY else Recorded(RecordedAll(frames[..|frames| - 1]), frames[|frames| - 1])
  }

  lemma {:induction false} ReplayedLog(id: PeerId, frames: seq<Frame>)
    ensures ReplayedAll(Fresh(id), frames).log == RecordedAll(frames)
    ensures ReplayedAll(Fresh(id), frames).id == id
  {
    if frames != [] {
      ReplayedLog(id, frames[..|frames| - 1]);
    }
  }

  /** No replayed stamp exhausts the clock. */
  predicate ReplayFits(id: PeerId, load: seq<Frame>) {
    load == [] ||
    var before, f := load[..|load| - 1], load[|load| - 1];
    && ReplayFits(id, before)
    && !ObserveOverflows(ReplayedAll(Fresh(id), before).clock, f.stamp.hlc, f.stamp.hlc.physical)
  }

  lemma HoldsNext(disk: Disk, load: seq<Frame>, i: nat, log: Log)
    requires Contiguous(disk) && LoadOf(disk, load) && i < |load| && Holds(log, load, i)
    ensures Holds(Recorded(log, load[i]), load, i + 1)
  {
    NextInOrder(disk, load, i, log);
    RecordHolds(load, i, log);
  }

  lemma RecordedOneMore(load: seq<Frame>, i: nat)
    requires i < |load|
    ensures RecordedAll(load[..i + 1]) == Recorded(RecordedAll(load[..i]), load[i])
  {
    PrefixSnoc(load, i);
  }

  lemma {:induction false} ReplayHolds(disk: Disk, load: seq<Frame>, i: nat)
    requires Contiguous(disk) && LoadOf(disk, load) && i <= |load|
    ensures Holds(RecordedAll(load[..i]), load, i)
  {
    if i > 0 {
      ReplayHolds(disk, load, i - 1);
      HoldsNext(disk, load, i - 1, RecordedAll(load[..i - 1]));
      RecordedOneMore(load, i - 1);
    }
  }

  /** Replaying a load rebuilds, for every origin, exactly the persisted frames in sequence. */
  lemma ReplayRebuilds(id: PeerId, disk: Disk, load: seq<Frame>)
    requires Contiguous(disk) && LoadOf(disk, load)
    ensures var s := Reopened(id, disk, load);
      && s.log.base == map[]
      && (forall o: PeerId, k: nat :: (o, k) in disk <==> 1 <= k <= Cursor(s.log, o))
      && (forall o: PeerId, k: nat :: (o, k) in disk ==> Held(s.log, o)[k - 1] == disk[(o, k)])
  {
    ReplayHolds(disk, load, |load|);
    ReplayedLog(id, load);
    assert load[..|load|] == load;
    var s := Reopened(id, disk, load);
    forall o: PeerId, k: nat
      ensures (o, k) in disk <==> 1 <= k <= Cursor(s.log, o)
      ensures (o, k) in disk ==> Held(s.log, o)[k - 1] == disk[(o, k)]
    {
      if (o, k) in disk {
        var m :| 0 <= m < |load| && load[m] == disk[(o, k)];
        assert load[m].seqno == k && load[m].stamp.peer == o;
      }
      if 1 <= k <= Cursor(s.log, o) {
        var g := s.log.observed[o][k - 1];
        assert g in load && KeyOf(g) == (o, k);
        var m :| 0 <= m < |load| && load[m] == g;
      }
    }
  }

  /** After replay the clock is past every replayed stamp, so the next local write is newer than all of them. */
  lemma {:induction false} ReplayAdvancesClock(id: PeerId, load: seq<Frame>)
    requires ReplayFits(id, load)
    ensures forall f :: f in load ==> HlcLess(f.stamp.hlc, ReplayedAll(Fresh(id), load).clock)
  {
    if load != [] {
      var before, f := load[..|load| - 1], load[|load| - 1];
      ReplayAdvancesClock(id, before);
      ObserveAdvances(ReplayedAll(Fresh(id), before).clock, f.stamp.hlc, f.stamp.hlc.physical);
      assert load == before + [f];
    }
  }
}

/** The keyspace behind the durable log. */
module Keyspace {
  import opened Bytes
  import opened Clock
  import opened Wire
  import opened Sync
  import opened Recovery

  type Store = map<seq<byte>, seq<byte>>

  /** The keyspace holds `image`, each value under its storage key. */
  ghost predicate Mirrors(store: Store, image: map<(PeerId, nat), seq<byte>>) {
    && (forall k :: k in image ==> k.1 < U64_LIMIT && FrameKey(k) in store && store[FrameKey(k)] == image[k])
    && (forall b :: b in store ==> exists k :: k in image && b == FrameKey(k))
  }

  predicate IsEncoding(bytes: seq<byte>, f: Frame) {
    InRange(f) && Encode(f) == Ok(bytes)
  }

  ghost predicate Encodes(image: map<(PeerId, nat), seq<byte>>, disk: Disk) {
    image.Keys == disk.Keys && forall k :: k in disk ==> IsEncoding(image[k], disk[k]) && KeyOf(disk[k]) == k
  }

  ghost predicate Ascending(keys: seq<seq<byte>>) {
    forall i, j :: 0 <= i < j < |keys| ==> LexLess(keys[i], keys[j])
  }

  /** Smallest key of a non-empty set. */
  method Smallest(keys: set<seq<byte>>) returns (least: seq<byte>)
    requires keys != {}
    ensures least in keys && forall k :: k in keys && k != least ==> LexLess(least, k)
  {
    least :| least in keys;
    var todo := keys - {least};
    while todo != {}
      invariant todo <= keys && least in keys
      invariant forall k :: k in keys - todo && k != least ==> LexLess(least, k)
      decreases |todo|
    {
      var k :| k in todo;
      ghost var before := least;
      LexTotal(least, k);
      if LexLess(k, least) {
        least := k;
      }
      forall x | x in keys - todo && x != least ensures LexLess(least, x) {
        if x != before && least != before { LexTransitive(least, before, x); }
      }
      todo := todo - {k};
    }
  }

  /** Keys in the order a keyspace iterates them. */
  method InKeyOrder(keys: set<seq<byte>>) returns (order: seq<seq<byte>>)
    ensures Ascending(order) && |order| == |keys|
    ensures forall k :: k in order <==> k in keys
  {
    order := [];
    var todo := keys;
    while todo != {}
      invariant todo <= keys && |order| + |todo| == |keys|
      invariant Ascending(order)
      invariant forall k :: k in order <==> k in keys && k !in todo
      invariant forall k, b :: k in order && b in todo ==> LexLess(k, b)
      decreases |todo|
    {
      var least := Smallest(todo);
      order := order + [least];
      todo := todo - {least};
    }
  }

  lemma PutMirrors(store: Store, image: map<(PeerId, nat), seq<byte>>, key: (PeerId, nat), bytes: seq<byte>)
    requires Mirrors(store, image) && key.1 < U64_LIMIT
    ensures Mirrors(store[FrameKey(key) := bytes], image[key := bytes])
  {
    var store', image' := store[FrameKey(key) := bytes], image[key := bytes];
    forall k | k in image' ensures FrameKey(k) in store' && store'[FrameKey(k)] == image'[k] {
      if k != key { FrameKeyOrder(k, key); }
    }
    forall b | b in store' ensures exists k :: k in image' && b == FrameKey(k) {
      if b == FrameKey(key) {
        assert key in image';
      } else {
        var k :| k in image && b == FrameKey(k);
        assert k in image';
      }
    }
  }

  lemma EncodingDecodes(bytes: seq<byte>, f: Frame)
    requires IsEncoding(bytes, f)
    ensures Decode(bytes) == Ok(f)
  {
    DecodeEncode(f, []);
    assert bytes + [] == bytes;
  }

  /** Every stored value decodes to the frame that belongs under its key. */
  lemma StoredDecodes(store: Store, image: map<(PeerId, nat), seq<byte>>, disk: Disk, b: seq<byte>)
    requires Mirrors(store, image) && Encodes(image, disk) && b in store
    ensures Decode(store[b]).Ok?
    ensures var f := Decode(store[b]).value; KeyOf(f) in disk && disk[KeyOf(f)] == f && FrameKey(KeyOf(f)) == b
  {
    var k :| k in image && b == FrameKey(k);
    EncodingDecodes(image[k], disk[k]);
  }

  lemma KeyOrderIsLoadOrder(keys: seq<seq<byte>>, disk: Disk, load: seq<Frame>)
    requires Ascending(keys) && |load| == |keys|
    requires forall k :: k in disk ==> k.1 < U64_LIMIT && FrameKey(k) in keys
    requires forall j :: 0 <= j < |keys| ==>
      KeyOf(load[j]) in disk && disk[KeyOf(load[j])] == load[j] && FrameKey(KeyOf(load[j])) == keys[j]
    ensures LoadOf(disk, load)
  {
    forall i, j | 0 <= i < j < |load| ensures KeyLess(KeyOf(load[i]), KeyOf(load[j])) {
      FrameKeyOrder(KeyOf(load[i]), KeyOf(load[j]));
    }
    forall k | k in disk ensures disk[k] in load {
      var i :| 0 <= i < |keys| && keys[i] == FrameKey(k);
      FrameKeyOrder(k, KeyOf(load[i]));
    }
  }

  /** What the keyspace gives, in iteration order, is the disk in load order. */
  lemma DecodedIsLoad(store: Store, image: map<(PeerId, nat), seq<byte>>, disk: Disk,
                      keys: seq<seq<byte>>, load: seq<Frame>)
    requires Mirrors(store, image) && Encodes(image, disk) && Ascending(keys) && |load| == |keys|
    requires forall b :: b in store <==> b in keys
    requires forall j :: 0 <= j < |keys| ==> Decode(store[keys[j]]) == Ok(load[j])
    ensures LoadOf(disk, load)
  {
    forall j | 0 <= j < |keys|
      ensures KeyOf(load[j]) in disk && disk[KeyOf(load[j])] == load[j] && FrameKey(KeyOf(load[j])) == keys[j]
    {
      StoredDecodes(store, image, disk, keys[j]);
    }
    KeyOrderIsLoadOrder(keys, disk, load);
  }

  /** Whether the store yields the n-th entry of an iteration. */
  type Gives = nat -> bool

  datatype LoadError = Unreadable | BadValue(error: WireError)

  function Entry(store: Store, keys: seq<seq<byte>>, gives: Gives, j: nat): Result<Frame, LoadError>
    requires j < |keys| && keys[j] in store
  {
    if !gives(j) then Err(Unreadable)
    else
      match Decode(store[keys[j]])
      case Ok(f) => Ok(f)
      case Err(e) => Err(BadValue(e))
  }

  /** The values under `keys`, up to the first that cannot be read or does not decode. */
  method DecodeAll(store: Store, keys: seq<seq<byte>>, gives: Gives) returns (result: Result<seq<Frame>, LoadError>)
    requires forall k :: k in keys ==> k in store
    ensures Decided(store, keys, gives, result)
  {
    var load: seq<Frame> := [];
    for i := 0 to |keys|
      invariant |load| == i
      invariant forall j :: 0 <= j < i ==> Entry(store, keys, gives, j) == Ok(load[j])
    {
      var f := Entry(store, keys, gives, i);
      if f.Err? {
        return Err(f.error);
      }
      load := load + [f.value];
    }
    return Ok(load);
  }

  ghost predicate Decided(store: Store, keys: seq<seq<byte>>, gives: Gives, result: Result<seq<Frame>, LoadError>)
    requires forall k :: k in keys ==> k in store
  {
    match result
    case Ok(load) => |load| == |keys| && forall j :: 0 <= j < |keys| ==> Entry(store, keys, gives, j) == Ok(load[j])
    case Err(e) => exists j :: 0 <= j < |keys| && Entry(store, keys, gives, j) == Err(e)
  }

  lemma StoredEntry(store: Store, image: map<(PeerId, nat), seq<byte>>, disk: Disk, keys: seq<seq<byte>>,
                    gives: Gives, j: nat)
    requires Mirrors(store, image) && Encodes(image, disk) && j < |keys| && keys[j] in store
    ensures var r := Entry(store, keys, gives, j);
      (r.Ok? <==> gives(j)) && (r.Ok? ==> Decode(store[keys[j]]) == Ok(r.value)) && (r.Err? ==> r.error == Unreadable)
  {
    StoredDecodes(store, image, disk, keys[j]);
  }

  /** Since every stored value decodes, only reading can fail. */
  lemma LoadDecides(store: Store, image: map<(PeerId, nat), seq<byte>>, disk: Disk, keys: seq<seq<byte>>, gives: Gives,
                    result: Result<seq<Frame>, LoadError>)
    requires Mirrors(store, image) && Encodes(image, disk) && Ascending(keys)
    requires (forall b :: b in store <==> b in keys) && Decided(store, keys, gives, result)
    ensures result.Ok? <==> forall j :: 0 <= j < |keys| ==> gives(j)
    ensures result.Ok? ==> LoadOf(disk, result.value)
    ensures result.Err? ==> result.error == Unreadable
  {
    match result
    case Ok(load) =>
      forall j | 0 <= j < |keys| ensures gives(j) && Decode(store[keys[j]]) == Ok(load[j]) {
        StoredEntry(store, image, disk, keys, gives, j);
      }
      DecodedIsLoad(store, image, disk, keys, load);
    case Err(e) =>
      var j :| 0 <= j < |keys| && Entry(store, keys, gives, j) == Err(e);
      StoredEntry(store, image, disk, keys, gives, j);
  }

  class FrameStore {
    var frames: Store
    ghost var image: map<(PeerId, nat), seq<byte>>
    ghost var disk: Disk

    ghost predicate Valid()
      reads this
    {
      Mirrors(frames, image) && Encodes(image, disk)
    }

    constructor ()
      ensures Valid() && disk == map[]
    {
      frames, image, disk := map[], map[], map[];
    }

    /** `inserted` is whether the keyspace took the value, `synced` whether the flush after it succeeded. */
    method Append(f: Frame, inserted: bool, synced: bool) returns (ok: bool, ghost io: AppendResult)
      requires Valid() && InRange(f)
      modifies this
      ensures Valid() && Some(disk) == DiskAfter(Some(old(disk)), f, io)
      ensures ok <==> io == Stored
      ensures io == if Encode(f).Err? || !inserted then Lost else if synced then Stored else Torn
    {
      var bytes := Encode(f);
      if bytes.Err? {
        return false, Lost;
      }
      if !inserted {
        return false, Lost;
      }
      PutMirrors(frames, image, KeyOf(f), bytes.value);
      frames := frames[FrameKey(KeyOf(f)) := bytes.value];
      image := image[KeyOf(f) := bytes.value];
      disk := disk[KeyOf(f) := f];
      return synced, if synced then Stored else Torn;
    }

    /**
     * Iteration order of the keyspace is the order that replay needs. Every stored value decodes, so a load
     * fails only when an entry cannot be read.
     */
    method Load(gives: Gives) returns (result: Result<seq<Frame>, LoadError>)
      requires Valid()
      ensures result.Ok? <==> forall j :: 0 <= j < |frames| ==> gives(j)
      ensures result.Ok? ==> LoadOf(disk, result.value)
      ensures result.Err? ==> result.error == Unreadable
    {
      var keys := InKeyOrder(frames.Keys);
      result := DecodeAll(frames, keys, gives);
      LoadDecides(frames, image, disk, keys, gives, result);
    }
  }
}
