/**
 The trust store (internal/identity/truststore.go): a map of peers in memory,
 mirrored to one file that is written whole or not at all. JSON is exact here, so
 the file is the version number and the list of records.
 */
module TrustStore {
  import opened Bytes
  import opened Sorting

  const VERSION: int := 1
  const KEY_LEN: nat := 32
  const LEVEL_OWNED: int := 2
  const TIER_NONE: int := 0

  datatype Peer = Peer(
    deviceId: bytes, identityKey: bytes, privilegeKey: bytes, displayName: bytes, platform: bytes, level: int,
    granted: bytes, authPolicy: bytes, tokenGrantedAt: i64, tier: int, createdAt: i64, lastSeen: i64)

  datatype File = File(version: int, peers: seq<Peer>)

  datatype Error = NoPath | Unreadable | Unparsable | WrongVersion | BadRecord | UnknownPeer | WriteFailed

  datatype Result<+T> = Ok(value: T) | Err(error: Error)

  /** What reading the path gives. */
  datatype Read = Missing | ReadError | Garbled | Parsed(file: File)

  /** validatePeer; `derive` is DeriveDeviceID, of which nothing is assumed. */
  predicate ValidPeer(derive: bytes -> bytes, p: Peer) {
    && ValidDeviceId(p.deviceId)
    && |p.identityKey| == KEY_LEN
    && derive(p.identityKey) == p.deviceId
    && (|p.privilegeKey| == 0 || |p.privilegeKey| == KEY_LEN)
    && !(p.level == LEVEL_OWNED && (p.tier == TIER_NONE || |p.privilegeKey| == 0))
  }

  ghost predicate AllValid(derive: bytes -> bytes, m: map<bytes, Peer>) {
    forall id <- m :: m[id].deviceId == id && ValidPeer(derive, m[id])
  }

  // --- the file as a function of the map -----------------------------------------

  function Ids(ps: seq<Peer>): (ids: seq<bytes>)
    ensures |ids| == |ps|
  {
    seq(|ps|, i requires 0 <= i < |ps| => ps[i].deviceId)
  }

  /** `ps` is `m`, listed in id order. */
  ghost predicate Lists(ps: seq<Peer>, m: map<bytes, Peer>) {
    && StrictlySorted(Ids(ps))
    && (forall id :: id in Ids(ps) <==> id in m)
    && forall p <- ps :: p.deviceId in m && m[p.deviceId] == p
  }

  /** The list of a map is unique: what is on disk depends only on what is in memory. */
  lemma ListsUnique(ps: seq<Peer>, qs: seq<Peer>, m: map<bytes, Peer>)
    requires Lists(ps, m) && Lists(qs, m)
    ensures ps == qs
  {
    SortedUnique(Ids(ps), Ids(qs));
    forall k | 0 <= k < |ps| ensures ps[k] == qs[k] {
      assert Ids(ps)[k] == Ids(qs)[k];
      assert ps[k] in ps && qs[k] in qs;
    }
  }

  /** The store OpenTrustStore builds from a list: a later record for an id replaces an earlier one. */
  function Loaded(ps: seq<Peer>): map<bytes, Peer> {
    if ps == [] then map[]
    else Loaded(ps[..|ps| - 1])[ps[|ps| - 1].deviceId := ps[|ps| - 1]]
  }

  lemma {:induction false} LoadedDomain(ps: seq<Peer>)
    ensures forall id :: id in Loaded(ps) <==> id in Ids(ps)
  {
    if ps != [] {
      var n := |ps| - 1;
      LoadedDomain(ps[..n]);
      assert Ids(ps) == Ids(ps[..n]) + [ps[n].deviceId];
    }
  }

  /** Each id maps to the last record that carries it. */
  lemma {:induction false} LoadedKeepsLast(ps: seq<Peer>, i: nat)
    requires i < |ps| && ps[i].deviceId !in Ids(ps)[i + 1..]
    ensures ps[i].deviceId in Loaded(ps) && Loaded(ps)[ps[i].deviceId] == ps[i]
  {
    var n := |ps| - 1;
    if i < n {
      var init := ps[..n];
      assert Ids(ps)[i + 1..][n - (i + 1)] == ps[n].deviceId;
      assert Ids(ps)[i + 1..] == Ids(init)[i + 1..] + [ps[n].deviceId];
      LoadedKeepsLast(init, i);
    }
  }

  /** Writing a map out and loading it again gives the map. */
  lemma ListsLoad(ps: seq<Peer>, m: map<bytes, Peer>)
    requires Lists(ps, m)
    ensures Loaded(ps) == m
  {
    LoadedDomain(ps);
    forall id <- m ensures id in Loaded(ps) && Loaded(ps)[id] == m[id] {
      var i :| 0 <= i < |ps| && Ids(ps)[i] == id;
      assert ps[i] in ps;
      NoRepeatAfter(Ids(ps), i);
      LoadedKeepsLast(ps, i);
    }
  }

  lemma ListById(ids: seq<bytes>, m: map<bytes, Peer>)
    requires StrictlySorted(ids) && (forall y :: y in ids <==> y in m) && forall id <- m :: m[id].deviceId == id
    ensures exists ps :: Lists(ps, m)
  {
    var ps := seq(|ids|, i requires 0 <= i < |ids| => assert ids[i] in ids; m[ids[i]]);
    assert Ids(ps) == ids;
    assert Lists(ps, m);
  }

  /** Every map has such a list. */
  lemma {:induction false} ListExists(m: map<bytes, Peer>)
    requires forall id <- m :: m[id].deviceId == id
    ensures exists ps :: Lists(ps, m)
    decreases |m|
  {
    if m == map[] {
      assert Lists([], m);
    } else {
      var id :| id in m;
      ListExists(m - {id});
      var ps :| Lists(ps, m - {id});
      var ids := Insert(id, Ids(ps));
      InsertSorts(id, Ids(ps));
      assert forall y :: y in ids <==> y in m;
      ListById(ids, m);
    }
  }

  ghost function FileOf(m: map<bytes, Peer>): (ps: seq<Peer>)
    requires forall id <- m :: m[id].deviceId == id
    ensures Lists(ps, m)
  {
    ListExists(m);
    var ps :| Lists(ps, m);
    ps
  }

  // --- opening ------------------------------------------------------------------

  ghost function Decoded(derive: bytes -> bytes, read: Read): Result<map<bytes, Peer>> {
    match read
    case Missing => Ok(map[])
    case ReadError => Err(Unreadable)
    case Garbled => Err(Unparsable)
    case Parsed(f) =>
      if f.version != VERSION then Err(WrongVersion)
      else if exists p <- f.peers :: !ValidPeer(derive, p) then Err(BadRecord)
      else Ok(Loaded(f.peers))
  }

  method OpenTrustStore(derive: bytes -> bytes, path: bytes, read: Read) returns (r: Result<map<bytes, Peer>>)
    ensures r == if path == [] then Err(NoPath) else Decoded(derive, read)
  {
    if path == [] {
      return Err(NoPath);
    }
    match read {
      case Missing => return Ok(map[]);
      case ReadError => return Err(Unreadable);
      case Garbled => return Err(Unparsable);
      case Parsed(f) =>
        if f.version != VERSION {
          return Err(WrongVersion);
        }
        var peers := map[];
        for i := 0 to |f.peers|
          invariant peers == Loaded(f.peers[..i])
          invariant forall k | 0 <= k < i :: ValidPeer(derive, f.peers[k])
        {
          var p := f.peers[i];
          if !ValidPeer(derive, p) {
            return Err(BadRecord);
          }
          assert f.peers[..i + 1][..i] == f.peers[..i];
          peers := peers[p.deviceId := p];
        }
        assert f.peers[..|f.peers|] == f.peers;
        return Ok(peers);
    }
  }

  // --- the store ------------------------------------------------------------------

  datatype Store = Store(peers: map<bytes, Peer>, disk: Option<File>)

  const EMPTY: Store := Store(map[], None)

  /** A write of the file, which may fail as a whole. */
  ghost function Flushed(s: Store, m: map<bytes, Peer>, writeOk: bool): Store
    requires forall id <- m :: m[id].deviceId == id
  {
    if writeOk then Store(m, Some(File(VERSION, FileOf(m)))) else s
  }

  datatype Op = Put(p: Peer, writeOk: bool) | Delete(id: bytes, writeOk: bool)

  /** What a call returns: no error is success. */
  function Outcome(derive: bytes -> bytes, s: Store, op: Op): Option<Error> {
    match op
    case Put(p, ok) => if !ValidPeer(derive, p) then Some(BadRecord) else if ok then None else Some(WriteFailed)
    case Delete(id, ok) => if id !in s.peers then Some(UnknownPeer) else if ok then None else Some(WriteFailed)
  }

  ghost function Next(derive: bytes -> bytes, s: Store, op: Op): Store
    requires AllValid(derive, s.peers)
  {
    match op
    case Put(p, ok) => if ValidPeer(derive, p) then Flushed(s, s.peers[p.deviceId := p], ok) else s
    case Delete(id, ok) => if id in s.peers then Flushed(s, s.peers - {id}, ok) else s
  }

  class FileTrustStore {
    const derive: bytes -> bytes
    var peers: map<bytes, Peer>
    var disk: Option<File>

    function State(): Store
      reads this
    {
      Store(peers, disk)
    }

    ghost predicate Valid()
      reads this
    {
      AllValid(derive, peers)
    }

    constructor (derive: bytes -> bytes, peers: map<bytes, Peer>, disk: Option<File>)
      requires AllValid(derive, peers)
      ensures Valid() && this.derive == derive && State() == Store(peers, disk)
    {
      this.derive, this.peers, this.disk := derive, peers, disk;
    }

    /** A record a caller gets is the one under that id, and a valid one. */
    method Get(id: bytes) returns (p: Option<Peer>)
      requires Valid()
      ensures p.Some? <==> id in peers
      ensures p.Some? ==> p.value == peers[id] && p.value.deviceId == id && ValidPeer(derive, p.value)
    {
      p := if id in peers then Some(peers[id]) else None;
    }

    /** List, and the list flushLocked encodes. */
    method List() returns (ps: seq<Peer>)
      requires Valid()
      ensures ps == FileOf(peers)
    {
      hide StrictlySorted;
      hide ValidPeer;
      var ids := SortKeys(peers.Keys);
      ps := [];
      assert forall k | 0 <= k < |ids| :: ids[k] in ids && ids[k] in peers;
      for i := 0 to |ids|
        invariant |ps| == i
        invariant forall k | 0 <= k < i :: ps[k] == peers[ids[k]]
      {
        ps := ps + [peers[ids[i]]];
      }
      assert Ids(ps) == ids;
      ListsUnique(ps, FileOf(peers), peers);
    }

    /** flushLocked; `writeOk` is what the atomic file write reports. */
    method FlushLocked(writeOk: bool) returns (ok: bool)
      requires Valid()
      modifies this`disk
      ensures ok == writeOk
      ensures disk == if ok then Some(File(VERSION, FileOf(peers))) else old(disk)
    {
      var ps := List();
      if writeOk {
        disk := Some(File(VERSION, ps));
      }
      ok := writeOk;
    }

    method Put(p: Peer, writeOk: bool) returns (err: Option<Error>)
      requires Valid()
      modifies this
      ensures Valid()
      ensures err == Outcome(derive, old(State()), Op.Put(p, writeOk))
      ensures State() == Next(derive, old(State()), Op.Put(p, writeOk))
    {
      if !ValidPeer(derive, p) {
        return Some(BadRecord);
      }
      var prev := if p.deviceId in peers then Some(peers[p.deviceId]) else None;
      ghost var before := peers;
      peers := peers[p.deviceId := p];
      var ok := FlushLocked(writeOk);
      if !ok {
        if prev.Some? {
          peers := peers[p.deviceId := prev.value];
        } else {
          peers := peers - {p.deviceId};
        }
        assert peers == before;
        return Some(WriteFailed);
      }
      err := None;
    }

    method Delete(id: bytes, writeOk: bool) returns (err: Option<Error>)
      requires Valid()
      modifies this
      ensures Valid()
      ensures err == Outcome(derive, old(State()), Op.Delete(id, writeOk))
      ensures State() == Next(derive, old(State()), Op.Delete(id, writeOk))
    {
      if id !in peers {
        return Some(UnknownPeer);
      }
      ghost var before := peers;
      var prev := peers[id];
      peers := peers - {id};
      var ok := FlushLocked(writeOk);
      if !ok {
        peers := peers[id := prev];
        assert peers == before;
        return Some(WriteFailed);
      }
      err := None;
    }
  }

  // --- whole runs -------------------------------------------------------------------

  function OnDisk(s: Store): Read {
    if s.disk.None? then Missing else Parsed(s.disk.value)
  }

  /** Memory is what reopening the file would give, and every record in either is valid. */
  ghost predicate Mirrors(derive: bytes -> bytes, s: Store) {
    && AllValid(derive, s.peers)
    && Decoded(derive, OnDisk(s)) == Ok(s.peers)
  }

  /** Whatever file a store is opened from, it starts out mirrored. */
  lemma OpenMirrors(derive: bytes -> bytes, read: Read)
    requires Decoded(derive, read).Ok?
    ensures Mirrors(derive, Store(Decoded(derive, read).value, if read.Parsed? then Some(read.file) else None))
  {
    if read.Parsed? { LoadedValid(derive, read.file.peers); }
  }

  lemma {:induction false} LoadedValid(derive: bytes -> bytes, ps: seq<Peer>)
    requires forall p <- ps :: ValidPeer(derive, p)
    ensures AllValid(derive, Loaded(ps))
  {
    if ps != [] { LoadedValid(derive, ps[..|ps| - 1]); }
  }

  /** One call: memory and disk stay equal; a call that reports an error has changed neither. */
  lemma StepMirrors(derive: bytes -> bytes, s: Store, op: Op)
    requires Mirrors(derive, s)
    ensures Mirrors(derive, Next(derive, s, op))
    ensures Outcome(derive, s, op).Some? ==> Next(derive, s, op) == s
  {
    hide ValidPeer;
    hide Loaded;
    hide StrictlySorted;
    var u := Next(derive, s, op);
    if u != s {
      var ps := FileOf(u.peers);
      ListsLoad(ps, u.peers);
      assert forall p <- ps :: p.deviceId in u.peers && ValidPeer(derive, u.peers[p.deviceId]);
    }
  }

  ghost function After(derive: bytes -> bytes, s: Store, ops: seq<Op>): (u: Store)
    requires Mirrors(derive, s)
    ensures Mirrors(derive, u)
  {
    if ops == [] then s
    else
      var mid := After(derive, s, ops[..|ops| - 1]);
      StepMirrors(derive, mid, ops[|ops| - 1]);
      Next(derive, mid, ops[|ops| - 1])
  }

  /** What the calls so far say about `id`: the newest one acknowledged decides. */
  function Acknowledged(derive: bytes -> bytes, start: map<bytes, Peer>, ops: seq<Op>, id: bytes): Option<Peer> {
    if ops == [] then (if id in start then Some(start[id]) else None)
    else
      var earlier := Acknowledged(derive, start, ops[..|ops| - 1], id);
      match ops[|ops| - 1]
      case Put(p, ok) => if ok && p.deviceId == id && ValidPeer(derive, p) then Some(p) else earlier
      case Delete(d, ok) => if ok && d == id then None else earlier
  }

  /**
   Reopening after any run finds, for every id, exactly the record of the newest acknowledged
   call about it; and a record that says Owned has a 32-byte privilege key and a tier that protects it.
   */
  lemma {:induction false} ReopenFindsAcknowledged(derive: bytes -> bytes, s: Store, ops: seq<Op>, id: bytes)
    requires Mirrors(derive, s)
    ensures Decoded(derive, OnDisk(After(derive, s, ops))) == Ok(After(derive, s, ops).peers)
    ensures var m := After(derive, s, ops).peers;
      && Acknowledged(derive, s.peers, ops, id) == (if id in m then Some(m[id]) else None)
      && (id in m && m[id].level == LEVEL_OWNED ==> |m[id].privilegeKey| == KEY_LEN && m[id].tier != TIER_NONE)
      && (id in m ==> derive(m[id].identityKey) == id)
  {
    hide Decoded;
    if ops != [] { ReopenFindsAcknowledged(derive, s, ops[..|ops| - 1], id); }
  }

  // --- what a call answers ----------------------------------------------------------------

  /** The records a store accepts. */
  predicate Sound(derive: bytes -> bytes, p: Peer) {
    && |p.deviceId| == 16 && (forall c <- p.deviceId :: Letter(c))
    && |p.identityKey| == 32 && derive(p.identityKey) == p.deviceId
    && |p.privilegeKey| in {0, 32} && (p.level == 2 ==> p.tier != 0 && p.privilegeKey != [])
  }

  lemma SoundIsValid(derive: bytes -> bytes, p: Peer)
    ensures Sound(derive, p) <==> ValidPeer(derive, p)
  {
    DeviceIdAlphabet(p.deviceId);
  }

  /**
   After any calls: a record is refused iff it is unsound and stored otherwise, a deletion is refused iff
   nothing is stored under the id, and either fails beyond that only with the write. A call that reports no
   error has done what it says, and left the file of version 1 that lists the records in id order.
   */
  lemma CallVerdict(derive: bytes -> bytes, s: Store, ops: seq<Op>, op: Op)
    requires Mirrors(derive, s)
    ensures var u, err, w :=
        After(derive, s, ops), Outcome(derive, After(derive, s, ops), op), After(derive, s, ops + [op]);
      && w == Next(derive, u, op)
      && (op.Put? ==>
            && err == (if !Sound(derive, op.p) then Some(BadRecord) else if op.writeOk then None else Some(WriteFailed))
            && (err.None? ==> w.peers == u.peers[op.p.deviceId := op.p]))
      && (op.Delete? ==>
            && err == (if Acknowledged(derive, s.peers, ops, op.id).None? then Some(UnknownPeer)
                       else if op.writeOk then None else Some(WriteFailed))
            && (err.None? ==> w.peers == u.peers - {op.id}))
      && (err.Some? ==> w == u)
      && (err.None? ==> w.disk.Some? && w.disk.value.version == 1 && Lists(w.disk.value.peers, w.peers))
  {
    assert (ops + [op])[..|ops|] == ops;
    if op.Put? { SoundIsValid(derive, op.p); } else { ReopenFindsAcknowledged(derive, s, ops, op.id); }
    hide Sound;
    hide ValidPeer;
    hide Mirrors;
    hide Lists;
    hide Acknowledged;
  }

  /** A file opens iff it is of version 1 and every record in it is sound; no file at all opens as no records. */
  lemma OpenVerdict(derive: bytes -> bytes, read: Read)
    ensures Decoded(derive, read).Ok?
       <==> read == Missing
            || (read.Parsed? && read.file.version == 1 && forall p <- read.file.peers :: Sound(derive, p))
    ensures read == ReadError ==> Decoded(derive, read) == Err(Unreadable)
    ensures read == Garbled ==> Decoded(derive, read) == Err(Unparsable)
    ensures read.Parsed? && read.file.version != 1 ==> Decoded(derive, read) == Err(WrongVersion)
    ensures read.Parsed? && read.file.version == 1 && Decoded(derive, read).Err? ==>
        Decoded(derive, read) == Err(BadRecord)
    ensures read == Missing ==> Decoded(derive, read) == Ok(map[])
    ensures read.Parsed? && Decoded(derive, read).Ok? ==>
        forall i | 0 <= i < |read.file.peers| && read.file.peers[i].deviceId !in Ids(read.file.peers)[i + 1..] ::
          && read.file.peers[i].deviceId in Decoded(derive, read).value
          && Decoded(derive, read).value[read.file.peers[i].deviceId] == read.file.peers[i]
  {
    if read.Parsed? {
      var ps := read.file.peers;
      forall p ensures Sound(derive, p) <==> ValidPeer(derive, p) { SoundIsValid(derive, p); }
      hide Sound;
      hide ValidPeer;
      forall i | 0 <= i < |ps| && ps[i].deviceId !in Ids(ps)[i + 1..]
        ensures ps[i].deviceId in Loaded(ps) && Loaded(ps)[ps[i].deviceId] == ps[i]
      {
        LoadedKeepsLast(ps, i);
      }
      hide Loaded;
    }
  }
}
