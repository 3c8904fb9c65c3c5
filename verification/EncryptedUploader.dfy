/** The browser side of the resumable upload, run against the server over any number of interrupted sessions. */
module EncryptedUploader {
  import opened CiphertextStore
  import opened Encrypt
  import opened MediaStore
  import opened Wrappers

  /** The key material of one upload, as kept in localStorage. */
  datatype FileKey = FileKey(key: Key, ivBaseHex: string)

  datatype Outcome = Done | Failed | Misaligned

  /** An IV base belongs to one key: no two generated file keys share their random base. */
  ghost predicate KeyOk(k: FileKey, keyOf: string -> Key) {
    IsIvBase(k.ivBaseHex) && k.key == keyOf(k.ivBaseHex)
  }

  /** What the server has accepted is the first chunks of this file, all sealed under the key it was begun with. */
  ghost predicate Uploading(s: Server, g: Gcm, keyOf: string -> Key, file: Bytes) {
    && Inv(s)
    && match s.row.ivBase
       case None => s.row.totalBytes.None?
       case Some(base) =>
         && IsIvBase(base)
         && s.row.totalBytes == Some(CiphertextSize(|file|))
         && s.row.chunkBytes == Some(SEALED_CHUNK_BYTES)
         && |s.log| <= ChunkCount(|file|)
         && s.log == SealedChunks(g, keyOf(base), base, file, |s.log|)
  }

  /** The offset the server reports, and where the upload stands. */
  lemma OffsetMeansChunks(s: Server, g: Gcm, keyOf: string -> Key, file: Bytes)
    requires Lawful(g) && Uploading(s, g, keyOf, file)
    ensures |s.log| <= ChunkCount(|file|)
    ensures s.row.complete <==> |s.log| == ChunkCount(|file|)
    ensures !s.row.complete ==> s.row.received == |s.log| * SEALED_CHUNK_BYTES < CiphertextSize(|file|)
    ensures s.row.complete ==> s.row.received == CiphertextSize(|file|)
    ensures s.row.received > 0 ==> s.row.ivBase.Some?
  {
    hide Holds, Exact, ChunkCount;
    assert ChunkCount(|file|) >= 1 by { CountIsPositive(|file|); }
    match s.row.ivBase
    case None =>
      if s.log != [] { FlattenPositive(s.log); }
    case Some(base) =>
      SealedLength(g, keyOf(base), base, file, |s.log|);
      CountCovers(|file|, |s.log|);
  }

  lemma CountIsPositive(size: nat)
    ensures ChunkCount(size) >= 1
  {
  }

  lemma CountCovers(size: nat, n: nat)
    requires n <= ChunkCount(size)
    ensures n < ChunkCount(size) ==> n * SEALED_CHUNK_BYTES < CiphertextSize(size)
  {
  }

  function NextRequest(s: Server, g: Gcm, key: Key, base: string, file: Bytes): Request
    requires IsIvBase(base) && |s.log| < ChunkCount(|file|)
  {
    Request(s.row.received, SealedChunk(g, key, base, file, |s.log|), base,
            CiphertextSize(|file|), SEALED_CHUNK_BYTES)
  }

  /** The server was begun under this key, or not at all. */
  predicate Mine(row: Row, base: string) {
    row.ivBase == None || row.ivBase == Some(base)
  }

  lemma SealedChunkFits(g: Gcm, key: Key, base: string, file: Bytes, n: nat)
    requires Lawful(g) && IsIvBase(base) && n < ChunkCount(|file|)
    ensures
      var c := SealedChunk(g, key, base, file, n);
      0 < |c| <= MAX_CHUNK_BYTES && n * SEALED_CHUNK_BYTES + |c| <= CiphertextSize(|file|)
  {
    assert |SealedChunk(g, key, base, file, n)| == |PlainChunk(file, n)| + GCM_TAG_BYTES;
  }

  /** The chunks that a PUT of the client commits: its own, unless something happens before the offset is recorded. */
  function Gain(fault: Fault): nat {
    if fault.Clean? || fault.ReplyLost? then 1 else 0
  }

  /** One PUT of the client: it is accepted exactly when nothing interferes and the upload is this key's. */
  lemma ClientPut(s: Server, g: Gcm, keyOf: string -> Key, base: string, file: Bytes, fault: Fault)
    requires Lawful(g) && Uploading(s, g, keyOf, file) && IsIvBase(base) && !s.row.complete
    requires s.row.received > 0 ==> s.row.ivBase == Some(base)
    requires |s.log| < ChunkCount(|file|)
    ensures
      var (t, reply) := Put(s, NextRequest(s, g, keyOf(base), base, file), fault);
      && Uploading(t, g, keyOf, file)
      && (reply.Accepted? <==> fault.Clean? && Mine(s.row, base))
      && (reply.Accepted? ==>
            && t.row.ivBase == Some(base) && |t.log| == |s.log| + 1
            && t.row.received == s.row.received + |SealedChunk(g, keyOf(base), base, file, |s.log|)|)
      && (!Mine(s.row, base) ==> t == s)
      && (Mine(s.row, base) ==> Mine(t.row, base) && |t.log| == |s.log| + Gain(fault))
  {
    hide Inv, Truncated, Written, PartlyWritten, SealedChunk, ChunkCount, Flatten;
    var n, r := |s.log|, NextRequest(s, g, keyOf(base), base, file);
    OffsetMeansChunks(s, g, keyOf, file);
    SealedChunkFits(g, keyOf(base), base, file, n);
    PutKeeps(s, r, fault);
    BeginKeeps(s, r.totalBytes, r.chunkBytes, base);
    AppendKeeps(s.(row := Begin(s.row, r.totalBytes, r.chunkBytes, base).0), r.offset, r.chunk, base, fault);
    AppendKeeps(s, r.offset, r.chunk, base, fault);
  }

  // ------------------------------------------------------------- one session

  /** One call of AES-GCM. */
  datatype Seal = Seal(key: Key, iv: Bytes, plain: Bytes)

  /** The call that seals chunk i of the file. */
  function ChunkSeal(k: FileKey, file: Bytes, i: nat): Seal
    requires IsIvBase(k.ivBaseHex) && i < ChunkCount(|file|)
  {
    Seal(k.key, ChunkIv(k.ivBaseHex, i), PlainChunk(file, i))
  }

  /** The calls that seal n chunks in a row. */
  function ChunkSeals(k: FileKey, file: Bytes, from: nat, n: nat): seq<Seal>
    requires IsIvBase(k.ivBaseHex) && from + n <= ChunkCount(|file|)
  {
    seq(n, i requires 0 <= i < n => ChunkSeal(k, file, from + i))
  }

  /** What a session leaves: the server, how it ended, and every seal it made, in order. */
  datatype Sent = Sent(server: Server, outcome: Outcome, seals: seq<Seal>)

  lemma AcceptedGrows(s: Server, r: Request, fault: Fault)
    ensures Put(s, r, fault).1.Accepted? ==> |Put(s, r, fault).0.log| == |s.log| + 1
  {
    hide Begin, Refusal, Truncated, Written, PartlyWritten;
  }

  /** The send loop from `sent` on, after `seals`: seal a chunk and send it, until one is not accepted. */
  function Sends(s: Server, g: Gcm, k: FileKey, file: Bytes, plan: nat -> Fault, sent: nat, seals: seq<Seal>): Sent
    requires IsIvBase(k.ivBaseHex)
    decreases ChunkCount(|file|) - |s.log|
  {
    if |s.log| >= ChunkCount(|file|) then Sent(s, Done, seals) else
      var r := NextRequest(s, g, k.key, k.ivBaseHex, file);
      var made := seals + [ChunkSeal(k, file, |s.log|)];
      AcceptedGrows(s, r, plan(sent));
      var (t, reply) := Put(s, r, plan(sent));
      if reply.Accepted? then Sends(t, g, k, file, plan, sent + 1, made) else Sent(t, Failed, made)
  }

  lemma SendsStep(s: Server, g: Gcm, k: FileKey, file: Bytes, plan: nat -> Fault, sent: nat, seals: seq<Seal>)
    requires IsIvBase(k.ivBaseHex) && |s.log| < ChunkCount(|file|)
    ensures
      var made := seals + [ChunkSeal(k, file, |s.log|)];
      var (t, reply) := Put(s, NextRequest(s, g, k.key, k.ivBaseHex, file), plan(sent));
      Sends(s, g, k, file, plan, sent, seals)
      == if reply.Accepted? then Sends(t, g, k, file, plan, sent + 1, made) else Sent(t, Failed, made)
  {
    hide Put, NextRequest, ChunkCount, ChunkSeal;
  }

  lemma SendsEnd(s: Server, g: Gcm, k: FileKey, file: Bytes, plan: nat -> Fault, sent: nat, seals: seq<Seal>)
    requires IsIvBase(k.ivBaseHex)
    ensures |s.log| >= ChunkCount(|file|) ==> Sends(s, g, k, file, plan, sent, seals) == Sent(s, Done, seals)
  {
    hide Put, NextRequest, ChunkCount, ChunkSeal;
  }

  /** What one session makes of the server. */
  function SessionOf(s: Server, g: Gcm, k: FileKey, file: Bytes, statusLost: bool, plan: nat -> Fault): Sent
    requires IsIvBase(k.ivBaseHex)
  {
    if statusLost then Sent(s, Failed, [])
    else if s.row.complete then Sent(s, Done, [])
    else if s.row.received > 0 && s.row.ivBase != Some(k.ivBaseHex) then Sent(s, Failed, [])
    else if s.row.received % SEALED_CHUNK_BYTES != 0 then Sent(s, Misaligned, [])
    else Sends(s, g, k, file, plan, 0, [])
  }

  /** How many of the next PUTs, at most `limit`, go through before one meets a fault. */
  function CleanPuts(plan: nat -> Fault, sent: nat, limit: nat): (n: nat)
    ensures n <= limit
    decreases limit
  {
    if limit == 0 || !plan(sent).Clean? then 0 else 1 + CleanPuts(plan, sent + 1, limit - 1)
  }

  /** How many PUTs are made: the ones that go through, and the one that does not. */
  function Attempted(plan: nat -> Fault, sent: nat, limit: nat): (n: nat)
    ensures n <= limit
  {
    var clean := CleanPuts(plan, sent, limit);
    if clean < limit then clean + 1 else clean
  }

  /**
   Every seal of a session: nothing unless the loop is entered; then the chunks from the first uncommitted one on,
   one for each PUT made. Another key's upload, met at offset 0, refuses the first PUT.
   */
  function SessionSeals(s: Server, k: FileKey, file: Bytes, statusLost: bool, plan: nat -> Fault): seq<Seal>
    requires IsIvBase(k.ivBaseHex)
  {
    if statusLost || s.row.complete || |s.log| >= ChunkCount(|file|)
       || (s.row.received > 0 && s.row.ivBase != Some(k.ivBaseHex)) then []
    else
      var attempted :=
        if Mine(s.row, k.ivBaseHex) then Attempted(plan, 0, ChunkCount(|file|) - |s.log|) else 1;
      ChunkSeals(k, file, |s.log|, attempted)
  }

  /** The chunks a session commits when `remaining` are left: the clean PUTs, and one whose reply was lost. */
  function Gained(plan: nat -> Fault, sent: nat, remaining: nat): nat {
    var clean := CleanPuts(plan, sent, remaining);
    if clean < remaining then clean + Gain(plan(sent + clean)) else clean
  }

  /** One pass of the loop under the upload's key. */
  lemma ClientStep(s: Server, g: Gcm, keyOf: string -> Key, k: FileKey, file: Bytes, fault: Fault)
    requires Lawful(g) && Uploading(s, g, keyOf, file) && KeyOk(k, keyOf) && Mine(s.row, k.ivBaseHex)
    requires |s.log| < ChunkCount(|file|)
    ensures
      var (t, reply) := Put(s, NextRequest(s, g, k.key, k.ivBaseHex, file), fault);
      && Uploading(t, g, keyOf, file) && Mine(t.row, k.ivBaseHex)
      && (reply.Accepted? <==> fault.Clean?) && |t.log| == |s.log| + Gain(fault)
  {
    hide Uploading, Put, NextRequest, ChunkCount, Gain;
    OffsetMeansChunks(s, g, keyOf, file);
    ClientPut(s, g, keyOf, k.ivBaseHex, file, fault);
  }

  /** The send loop commits exactly what the faults let through, and is done exactly when that is everything. */
  lemma {:induction false} SendsProgress(
    s: Server, g: Gcm, keyOf: string -> Key, k: FileKey, file: Bytes, plan: nat -> Fault, sent: nat,
    seals: seq<Seal>)
    requires Lawful(g) && Uploading(s, g, keyOf, file) && KeyOk(k, keyOf) && Mine(s.row, k.ivBaseHex)
    ensures
      var remaining := ChunkCount(|file|) - |s.log|;
      var r := Sends(s, g, k, file, plan, sent, seals);
      && remaining >= 0
      && r.seals == seals + ChunkSeals(k, file, |s.log|, Attempted(plan, sent, remaining))
      && Uploading(r.server, g, keyOf, file) && Mine(r.server.row, k.ivBaseHex)
      && r.outcome == (if CleanPuts(plan, sent, remaining) == remaining then Done else Failed)
      && |r.server.log| == |s.log| + Gained(plan, sent, remaining)
    decreases ChunkCount(|file|) - |s.log|
  {
    hide Uploading, Put, NextRequest, ChunkCount, Sends, CleanPuts, Gained, Attempted, Lawful, IsIvBase, Mine;
    hide ChunkSeal, ChunkSeals;
    OffsetMeansChunks(s, g, keyOf, file);
    var n, remaining := |s.log|, ChunkCount(|file|) - |s.log|;
    if n < ChunkCount(|file|) {
      var made := seals + [ChunkSeal(k, file, n)];
      ClientStep(s, g, keyOf, k, file, plan(sent));
      SendsStep(s, g, k, file, plan, sent, seals);
      GainedStep(plan, sent, remaining);
      OneMoreSeal(seals, k, file, n, Attempted(plan, sent, remaining));
      var (t, reply) := Put(s, NextRequest(s, g, k.key, k.ivBaseHex, file), plan(sent));
      if reply.Accepted? { SendsProgress(t, g, keyOf, k, file, plan, sent + 1, made); }
    } else {
      SendsEnd(s, g, k, file, plan, sent, seals);
      NothingGained(plan, sent);
      NoSeals(seals, k, file, n);
    }
  }

  lemma OneMoreSeal(seals: seq<Seal>, k: FileKey, file: Bytes, from: nat, n: nat)
    requires IsIvBase(k.ivBaseHex) && n > 0 && from + n <= ChunkCount(|file|)
    ensures seals + ChunkSeals(k, file, from, n)
            == (seals + [ChunkSeal(k, file, from)]) + ChunkSeals(k, file, from + 1, n - 1)
    ensures n == 1 ==> seals + ChunkSeals(k, file, from, n) == seals + [ChunkSeal(k, file, from)]
  {
    hide ChunkSeal, ChunkCount, IsIvBase;
  }

  lemma NoSeals(seals: seq<Seal>, k: FileKey, file: Bytes, from: nat)
    requires IsIvBase(k.ivBaseHex) && from <= ChunkCount(|file|)
    ensures seals + ChunkSeals(k, file, from, 0) == seals
  {
    hide ChunkSeal, ChunkCount, IsIvBase;
  }

  lemma GainedStep(plan: nat -> Fault, sent: nat, remaining: nat)
    requires remaining > 0
    ensures plan(sent).Clean? ==>
      && CleanPuts(plan, sent, remaining) == 1 + CleanPuts(plan, sent + 1, remaining - 1)
      && Gained(plan, sent, remaining) == 1 + Gained(plan, sent + 1, remaining - 1)
      && Attempted(plan, sent, remaining) == 1 + Attempted(plan, sent + 1, remaining - 1)
    ensures !plan(sent).Clean? ==>
      && CleanPuts(plan, sent, remaining) == 0 && Gained(plan, sent, remaining) == Gain(plan(sent))
      && Attempted(plan, sent, remaining) == 1
  {
  }

  lemma NothingGained(plan: nat -> Fault, sent: nat)
    ensures CleanPuts(plan, sent, 0) == 0 == Gained(plan, sent, 0) && Attempted(plan, sent, 0) == 0
  {
  }

  /** A session is done exactly when the upload was complete or is this key's and every remaining PUT goes through. */
  lemma SessionProgress(
    s: Server, g: Gcm, keyOf: string -> Key, k: FileKey, file: Bytes, statusLost: bool, plan: nat -> Fault)
    requires Lawful(g) && Uploading(s, g, keyOf, file) && KeyOk(k, keyOf)
    ensures |s.log| <= ChunkCount(|file|)
    ensures
      var remaining := ChunkCount(|file|) - |s.log|;
      var mine := Mine(s.row, k.ivBaseHex);
      var r := SessionOf(s, g, k, file, statusLost, plan);
      && Uploading(r.server, g, keyOf, file) && !r.outcome.Misaligned?
      && (r.outcome.Done? <==>
            !statusLost && (s.row.complete || (mine && CleanPuts(plan, 0, remaining) == remaining)))
      && |r.server.log| == |s.log| + (if statusLost || !mine then 0 else Gained(plan, 0, remaining))
      && (s.row.complete || statusLost || !mine ==> r.server == s)
      && (mine ==> Mine(r.server.row, k.ivBaseHex))
      && (r.server.row.complete <==> |r.server.log| == ChunkCount(|file|))
      && r.seals == SessionSeals(s, k, file, statusLost, plan)
  {
    hide Uploading, Put, ChunkCount, Gained, CleanPuts, Attempted, Sends, ChunkSeals;
    OffsetMeansChunks(s, g, keyOf, file);
    NothingGained(plan, 0);
    if !statusLost && !s.row.complete {
      if Mine(s.row, k.ivBaseHex) {
        SendsProgress(s, g, keyOf, k, file, plan, 0, []);
      } else if s.row.received == 0 {
        NotMine(s, g, keyOf, k, file, plan);
      }
    }
    OffsetMeansChunks(SessionOf(s, g, k, file, statusLost, plan).server, g, keyOf, file);
  }

  lemma NotMine(s: Server, g: Gcm, keyOf: string -> Key, k: FileKey, file: Bytes, plan: nat -> Fault)
    requires Lawful(g) && Uploading(s, g, keyOf, file) && KeyOk(k, keyOf)
    requires !s.row.complete && s.row.received == 0 && !Mine(s.row, k.ivBaseHex)
    ensures |s.log| < ChunkCount(|file|)
    ensures Sends(s, g, k, file, plan, 0, []) == Sent(s, Failed, ChunkSeals(k, file, |s.log|, 1))
  {
    hide Uploading, Put, ChunkCount, Mine, ChunkSeal, ChunkSeals;
    OffsetMeansChunks(s, g, keyOf, file);
    OneMoreSeal([], k, file, |s.log|, 1);
    SendsStep(s, g, k, file, plan, 0, []);
    hide Sends;
    OtherKeyRefused(s, g, keyOf, k, file, plan(0));
  }

  lemma OtherKeyRefused(s: Server, g: Gcm, keyOf: string -> Key, k: FileKey, file: Bytes, fault: Fault)
    requires Lawful(g) && Uploading(s, g, keyOf, file) && KeyOk(k, keyOf) && |s.log| < ChunkCount(|file|)
    requires !s.row.complete && s.row.received == 0 && !Mine(s.row, k.ivBaseHex)
    ensures
      var (t, reply) := Put(s, NextRequest(s, g, k.key, k.ivBaseHex, file), fault);
      t == s && !reply.Accepted?
  {
    hide Inv, Append, IsIvBase, SealedChunk, ChunkCount;
  }

  class EncryptedUploader {
    /** localStorage, for this asset. */
    var stored: Option<FileKey>
    /** Every call of AES-GCM so far. */
    ghost var seals: seq<Seal>

    constructor ()
      ensures stored == None && seals == []
    {
      stored := None;
      seals := [];
    }

    method KeyForAsset(generated: FileKey) returns (k: FileKey)
      modifies this`stored
      ensures k == (if old(stored).Some? then old(stored).value else generated) && stored == Some(k)
    {
      if stored.Some? { return stored.value; }
      stored := Some(generated);
      return generated;
    }

    /** `encryptChunk`, on chunk `index` of the file. */
    method EncryptChunk(g: Gcm, k: FileKey, file: Bytes, index: nat) returns (sealed: Bytes)
      requires IsIvBase(k.ivBaseHex) && index < ChunkCount(|file|)
      modifies this`seals
      ensures sealed == SealedChunk(g, k.key, k.ivBaseHex, file, index)
      ensures seals == old(seals) + [ChunkSeal(k, file, index)]
    {
      hide ChunkIv, PlainChunk, ChunkCount;
      var plain := PlainChunk(file, index);
      var iv := FillIv(k.ivBaseHex, index);
      sealed := g.seal(k.key, iv[..], plain);
      seals := seals + [Seal(k.key, iv[..], plain)];
    }

    /** One session: `plan` says what befalls each PUT. */
    method UploadEncrypted(
      server: CiphertextStore, g: Gcm, ghost keyOf: string -> Key, file: Bytes,
      generated: FileKey, statusLost: bool, plan: nat -> Fault) returns (r: Outcome)
      requires Lawful(g) && Uploading(server.State(), g, keyOf, file)
      requires KeyOk(generated, keyOf) && (stored.Some? ==> KeyOk(stored.value, keyOf))
      modifies this, server
      ensures Uploading(server.State(), g, keyOf, file)
      ensures stored == Some(if old(stored).Some? then old(stored).value else generated)
      ensures !r.Misaligned?
      ensures r.Done? ==> server.complete
      ensures
        var u := SessionOf(old(server.State()), g, stored.value, file, statusLost, plan);
        server.State() == u.server && r == u.outcome && seals == old(seals) + u.seals
      ensures seals == old(seals) + SessionSeals(old(server.State()), stored.value, file, statusLost, plan)
      // resuming works exactly under the key the upload was begun with, when every remaining PUT goes through
      ensures
        var remaining := ChunkCount(|file|) - |old(server.log)|;
        && remaining >= 0
        && (r.Done? <==>
              !statusLost
              && (old(server.complete)
                  || (Mine(old(server.UploadStatus()), stored.value.ivBaseHex)
                      && CleanPuts(plan, 0, remaining) == remaining)))
    {
      hide Uploading, Put, Inv, ChunkCount, ChunkIv, PlainChunk, SealedChunk, Sends, CleanPuts, SessionSeals, ChunkSeal;
      ghost var before := server.State();
      ghost var made: seq<Seal> := [];
      var meta := KeyForAsset(generated);
      var base := meta.ivBaseHex;
      SessionProgress(before, g, keyOf, meta, file, statusLost, plan);
      var totalCipherBytes := CiphertextSize(|file|);
      if statusLost { return Failed; }
      var status := server.UploadStatus();
      if status.complete { return Done; }
      OffsetMeansChunks(server.State(), g, keyOf, file);
      if status.received > 0 && status.ivBase != Some(base) { return Failed; }

      var chunkIndex := status.received / SEALED_CHUNK_BYTES;
      var offset := status.received;
      if offset % SEALED_CHUNK_BYTES != 0 { return Misaligned; }
      var sent := 0;
      while offset < totalCipherBytes
        invariant Uploading(server.State(), g, keyOf, file)
        invariant offset == server.received && chunkIndex == |server.log|
        invariant server.complete <==> offset == totalCipherBytes
        invariant offset < totalCipherBytes ==> offset == chunkIndex * SEALED_CHUNK_BYTES
        invariant offset <= totalCipherBytes
        invariant server.received > 0 ==> server.ivBase == Some(base)
        invariant Sends(server.State(), g, meta, file, plan, sent, made) == Sends(before, g, meta, file, plan, 0, [])
        invariant seals == old(seals) + made
        invariant stored == Some(meta)
        decreases totalCipherBytes - offset
      {
        OffsetMeansChunks(server.State(), g, keyOf, file);
        var sealed := EncryptChunk(g, meta, file, chunkIndex);
        SealedChunkFits(g, meta.key, base, file, chunkIndex);
        ClientPut(server.State(), g, keyOf, base, file, plan(sent));
        SendsStep(server.State(), g, meta, file, plan, sent, made);
        made := made + [ChunkSeal(meta, file, chunkIndex)];
        var reply := server.HandlePut(
          Request(offset, sealed, base, totalCipherBytes, SEALED_CHUNK_BYTES), plan(sent));
        if !reply.Accepted? { return Failed; }
        OffsetMeansChunks(server.State(), g, keyOf, file);
        offset := offset + |sealed|;
        chunkIndex := chunkIndex + 1;
        sent := sent + 1;
      }
      OffsetMeansChunks(server.State(), g, keyOf, file);
      SendsEnd(server.State(), g, meta, file, plan, sent, made);
      return Done;
    }
  }

  /**
   An upload whose first chunk never arrived, begun under a key that is then lost: the status is offset 0, so the
   client does not refuse, but the server turns away every other key from then on and stays as it is.
   */
  lemma AbandonedBeginIsStuck(g: Gcm, keyOf: string -> Key, file: Bytes, lost: string, base: string)
    requires Lawful(g) && IsIvBase(lost) && IsIvBase(base) && lost != base
    ensures
      var empty := Server(Row(None, 0, None, None, false), File(None), []);
      var (s, _) := Put(empty, NextRequest(empty, g, keyOf(lost), lost, file), BeforeTruncate);
      && s.row.received == 0 && !s.row.complete && !Mine(s.row, base)
      && Put(s, NextRequest(s, g, keyOf(base), base, file), Clean) == (s, Rejected(409))
  {
    hide IsIvBase, SealedChunk, ChunkCount;
    CountIsPositive(|file|);
    SealedChunkFits(g, keyOf(lost), lost, file, 0);
    SealedChunkFits(g, keyOf(base), base, file, 0);
  }

  // ------------------------------------------------------------- what a finished upload is worth

  /** A complete upload reads back whole and opens, under the key of its recorded IV base, to the file. */
  lemma CompleteOpens(s: Server, g: Gcm, keyOf: string -> Key, file: Bytes)
    requires Lawful(g) && Uploading(s, g, keyOf, file) && s.row.complete
    ensures s.row.totalBytes.Some? && s.row.ivBase.Some? && IsIvBase(s.row.ivBase.value)
    ensures
      var base := s.row.ivBase.value;
      var ciphertext := Read(s.disk, s.row.totalBytes.value);
      ciphertext.Some? && OpenFrom(g, keyOf(base), base, ciphertext.value, 0) == Some(file)
  {
    hide Read, OpenFrom, ChunkCount, Inv;
    OffsetMeansChunks(s, g, keyOf, file);
    CompleteReads(s);
    assert s.row.ivBase.Some?;
    SealedFileOpens(g, keyOf(s.row.ivBase.value), s.row.ivBase.value, file);
  }

  // ------------------------------------------------------------- any number of sessions

  datatype Session = Session(forget: bool, generated: FileKey, statusLost: bool, plan: nat -> Fault)

  /** The server, the key in localStorage, how each session ended, and every seal made. */
  datatype Upload = Upload(server: Server, stored: Option<FileKey>, outcomes: seq<Outcome>, seals: seq<Seal>)

  ghost predicate GoodKeys(sessions: seq<Session>) {
    forall s :: s in sessions ==> IsIvBase(s.generated.ivBaseHex)
  }

  /** The key of a session: the stored one, unless there is none or it has been cleared. */
  function KeyUsed(stored: Option<FileKey>, session: Session): FileKey {
    if session.forget || stored.None? then session.generated else stored.value
  }

  function SessionAfter(u: Upload, g: Gcm, file: Bytes, session: Session): Upload
    requires IsIvBase(KeyUsed(u.stored, session).ivBaseHex)
  {
    var k := KeyUsed(u.stored, session);
    var sent := SessionOf(u.server, g, k, file, session.statusLost, session.plan);
    Upload(sent.server, Some(k), u.outcomes + [sent.outcome], u.seals + sent.seals)
  }

  /** What a run of sessions makes of a server, localStorage being empty at first. */
  function SessionsOf(s: Server, g: Gcm, file: Bytes, sessions: seq<Session>): (u: Upload)
    requires GoodKeys(sessions)
    ensures |u.outcomes| == |sessions|
    ensures u.stored.Some? ==> IsIvBase(u.stored.value.ivBaseHex)
  {
    if sessions == [] then Upload(s, None, [], [])
    else
      assert sessions[|sessions| - 1] in sessions;
      SessionAfter(SessionsOf(s, g, file, sessions[..|sessions| - 1]), g, file, sessions[|sessions| - 1])
  }

  ghost predicate KeysOk(sessions: seq<Session>, keyOf: string -> Key) {
    forall s :: s in sessions ==> KeyOk(s.generated, keyOf)
  }

  lemma {:induction false} SessionsKeep(s: Server, g: Gcm, keyOf: string -> Key, file: Bytes, sessions: seq<Session>)
    requires Lawful(g) && Fresh(s) && KeysOk(sessions, keyOf)
    ensures GoodKeys(sessions)
    ensures
      var u := SessionsOf(s, g, file, sessions);
      Uploading(u.server, g, keyOf, file) && (u.stored.Some? ==> KeyOk(u.stored.value, keyOf))
  {
    hide Uploading, SessionOf, Lawful;
    if sessions == [] {
      FreshIsUploading(s, g, keyOf, file);
    } else {
      var front, last := sessions[..|sessions| - 1], sessions[|sessions| - 1];
      assert last in sessions;
      SessionsKeep(s, g, keyOf, file, front);
      var u := SessionsOf(s, g, file, front);
      SessionProgress(u.server, g, keyOf, KeyUsed(u.stored, last), file, last.statusLost, last.plan);
    }
  }

  /** The session commits everything that is left. */
  predicate Finishes(u: Upload, file: Bytes, session: Session) {
    var left := ChunkCount(|file|) - |u.server.log|;
    && !session.statusLost && Mine(u.server.row, KeyUsed(u.stored, session).ivBaseHex)
    && left > 0 && left == Gained(session.plan, 0, left)
  }

  lemma SessionFinishes(u: Upload, g: Gcm, keyOf: string -> Key, file: Bytes, session: Session)
    requires Lawful(g) && Uploading(u.server, g, keyOf, file) && KeyOk(KeyUsed(u.stored, session), keyOf)
    ensures SessionAfter(u, g, file, session).server.row.complete
       <==> u.server.row.complete || Finishes(u, file, session)
  {
    hide Uploading, SessionOf, Lawful, KeyOk, Gained, ChunkCount, Mine;
    var k := KeyUsed(u.stored, session);
    OffsetMeansChunks(u.server, g, keyOf, file);
    SessionProgress(u.server, g, keyOf, k, file, session.statusLost, session.plan);
    NothingGained(session.plan, 0);
  }

  /** Session i commits everything that the sessions before it left. */
  ghost predicate FinishesAt(s: Server, g: Gcm, file: Bytes, sessions: seq<Session>, i: nat)
    requires GoodKeys(sessions) && i < |sessions|
  {
    Finishes(SessionsOf(s, g, file, sessions[..i]), file, sessions[i])
  }

  /** The upload is complete exactly when some session, under the upload's key, met no fault until all was committed. */
  lemma {:induction false} CompletionIff(s: Server, g: Gcm, keyOf: string -> Key, file: Bytes, sessions: seq<Session>)
    requires Lawful(g) && Fresh(s) && KeysOk(sessions, keyOf)
    ensures GoodKeys(sessions)
    ensures SessionsOf(s, g, file, sessions).server.row.complete
       <==> exists i :: 0 <= i < |sessions| && FinishesAt(s, g, file, sessions, i)
  {
    hide Lawful, Finishes, Fresh, Uploading, SessionAfter, KeyUsed, KeyOk;
    SessionsKeep(s, g, keyOf, file, sessions);
    if sessions == [] {
      FreshIsIncomplete(s);
    } else {
      var front, last := sessions[..|sessions| - 1], sessions[|sessions| - 1];
      assert last in sessions;
      CompletionIff(s, g, keyOf, file, front);
      forall i | 0 <= i < |front| ensures FinishesAt(s, g, file, sessions, i) == FinishesAt(s, g, file, front, i) {
        assert sessions[..i] == front[..i];
      }
      SessionsKeep(s, g, keyOf, file, front);
      KeyUsedIsOk(SessionsOf(s, g, file, front), keyOf, last);
      SessionFinishes(SessionsOf(s, g, file, front), g, keyOf, file, last);
      hide FinishesAt;
      LastAt(s, g, file, sessions);
    }
  }

  lemma LastAt(s: Server, g: Gcm, file: Bytes, sessions: seq<Session>)
    requires GoodKeys(sessions) && sessions != []
    ensures GoodKeys(sessions[..|sessions| - 1])
    ensures
      var u, last := SessionsOf(s, g, file, sessions[..|sessions| - 1]), sessions[|sessions| - 1];
      && IsIvBase(KeyUsed(u.stored, last).ivBaseHex)
      && SessionsOf(s, g, file, sessions) == SessionAfter(u, g, file, last)
      && FinishesAt(s, g, file, sessions, |sessions| - 1) == Finishes(u, file, last)
  {
    hide Finishes, SessionAfter, IsIvBase;
    assert sessions[|sessions| - 1] in sessions;
  }

  lemma KeyUsedIsOk(u: Upload, keyOf: string -> Key, session: Session)
    requires (u.stored.Some? ==> KeyOk(u.stored.value, keyOf)) && KeyOk(session.generated, keyOf)
    ensures KeyOk(KeyUsed(u.stored, session), keyOf)
  {
  }

  lemma FreshIsIncomplete(s: Server)
    requires Fresh(s)
    ensures !s.row.complete && s.log == []
  {
  }

  /** While localStorage is not cleared, the upload stays the stored key's. */
  lemma {:induction false} KeyIsKept(s: Server, g: Gcm, keyOf: string -> Key, file: Bytes, sessions: seq<Session>)
    requires Lawful(g) && Fresh(s) && KeysOk(sessions, keyOf)
    requires forall t :: t in sessions ==> !t.forget
    ensures GoodKeys(sessions)
    ensures
      var u := SessionsOf(s, g, file, sessions);
      if u.stored.None? then u.server.row.ivBase == None else Mine(u.server.row, u.stored.value.ivBaseHex)
  {
    hide Uploading, SessionOf, Lawful;
    SessionsKeep(s, g, keyOf, file, sessions);
    if sessions != [] {
      var front, last := sessions[..|sessions| - 1], sessions[|sessions| - 1];
      assert last in sessions;
      KeyIsKept(s, g, keyOf, file, front);
      SessionsKeep(s, g, keyOf, file, front);
      var u := SessionsOf(s, g, file, front);
      SessionProgress(u.server, g, keyOf, KeyUsed(u.stored, last), file, last.statusLost, last.plan);
    }
  }

  /**
   After any sessions whatsoever in which localStorage was not cleared, one in which nothing goes wrong ends the
   upload, and what comes after it changes nothing.
   */
  lemma {:induction false} UndisturbedSessionCompletes(
    s: Server, g: Gcm, keyOf: string -> Key, file: Bytes, sessions: seq<Session>, i: nat)
    requires Lawful(g) && Fresh(s) && KeysOk(sessions, keyOf) && i < |sessions|
    requires forall k :: 0 <= k <= i ==> !sessions[k].forget
    requires !sessions[i].statusLost && forall n :: sessions[i].plan(n).Clean?
    ensures GoodKeys(sessions)
    ensures
      var u := SessionsOf(s, g, file, sessions);
      u.outcomes[i] == Done && u.server.row.complete && u.server == SessionsOf(s, g, file, sessions[..i + 1]).server
    decreases |sessions|
  {
    hide Uploading, SessionOf, Lawful, ChunkCount, CleanPuts, Fresh;
    SessionsKeep(s, g, keyOf, file, sessions);
    var front, last := sessions[..|sessions| - 1], sessions[|sessions| - 1];
    assert last in sessions;
    SessionsKeep(s, g, keyOf, file, front);
    var u := SessionsOf(s, g, file, front);
    SessionProgress(u.server, g, keyOf, KeyUsed(u.stored, last), file, last.statusLost, last.plan);
    if i < |sessions| - 1 {
      UndisturbedSessionCompletes(s, g, keyOf, file, front, i);
      assert front[..i + 1] == sessions[..i + 1];
    } else {
      assert sessions[..i + 1] == sessions;
      KeyIsKept(s, g, keyOf, file, front);
      AllGoThrough(last.plan, 0, ChunkCount(|file|) - |u.server.log|);
    }
  }

  lemma {:induction false} AllGoThrough(plan: nat -> Fault, sent: nat, limit: nat)
    requires forall n :: plan(n).Clean?
    ensures CleanPuts(plan, sent, limit) == limit
    decreases limit
  {
    if limit > 0 { AllGoThrough(plan, sent + 1, limit - 1); }
  }

  // ------------------------------------------------------------- IVs over whole runs

  /** The call seals a chunk of the file, under its counter and the key of its IV base. */
  ghost predicate SealsChunk(x: Seal, keyOf: string -> Key, file: Bytes, base: string, i: nat) {
    IsIvBase(base) && i < ChunkCount(|file|) && x == ChunkSeal(FileKey(keyOf(base), base), file, i)
  }

  ghost predicate IsChunkSeal(x: Seal, keyOf: string -> Key, file: Bytes) {
    exists base, i :: SealsChunk(x, keyOf, file, base, i)
  }

  lemma SessionSealsChunks(
    s: Server, keyOf: string -> Key, k: FileKey, file: Bytes, statusLost: bool, plan: nat -> Fault)
    requires KeyOk(k, keyOf)
    ensures forall x :: x in SessionSeals(s, k, file, statusLost, plan) ==> IsChunkSeal(x, keyOf, file)
  {
    hide Attempted, ChunkCount, ChunkSeal, Mine;
    var seals := SessionSeals(s, k, file, statusLost, plan);
    forall x | x in seals ensures IsChunkSeal(x, keyOf, file) {
      var i :| 0 <= i < |seals| && seals[i] == x;
      assert k == FileKey(keyOf(k.ivBaseHex), k.ivBaseHex);
      assert SealsChunk(x, keyOf, file, k.ivBaseHex, |s.log| + i);
    }
  }

  lemma {:induction false} SessionsSealChunks(
    s: Server, g: Gcm, keyOf: string -> Key, file: Bytes, sessions: seq<Session>)
    requires Lawful(g) && Fresh(s) && KeysOk(sessions, keyOf)
    ensures GoodKeys(sessions)
    ensures forall x :: x in SessionsOf(s, g, file, sessions).seals ==> IsChunkSeal(x, keyOf, file)
  {
    hide Uploading, SessionOf, Lawful, IsChunkSeal, Fresh;
    SessionsKeep(s, g, keyOf, file, sessions);
    if sessions != [] {
      var front, last := sessions[..|sessions| - 1], sessions[|sessions| - 1];
      assert last in sessions;
      SessionsKeep(s, g, keyOf, file, front);
      SessionsSealChunks(s, g, keyOf, file, front);
      var u := SessionsOf(s, g, file, front);
      SessionProgress(u.server, g, keyOf, KeyUsed(u.stored, last), file, last.statusLost, last.plan);
      SessionSealsChunks(u.server, keyOf, KeyUsed(u.stored, last), file, last.statusLost, last.plan);
    }
  }

  /**
   Over every run of sessions of a registrable file, two calls of AES-GCM with one IV are one call: the same key
   and the same plaintext.
   */
  lemma NoIvIsReused(
    s: Server, g: Gcm, keyOf: string -> Key, file: Bytes, sessions: seq<Session>, i: nat, j: nat)
    requires Lawful(g) && Fresh(s) && KeysOk(sessions, keyOf) && |file| <= MAX_BYTE_SIZE
    ensures GoodKeys(sessions)
    ensures
      var seals := SessionsOf(s, g, file, sessions).seals;
      i < |seals| && j < |seals| && seals[i].iv == seals[j].iv ==> seals[i] == seals[j]
  {
    hide SessionsOf, Uploading, Lawful, Fresh, ChunkIv, PlainChunk, ChunkCount;
    SessionsSealChunks(s, g, keyOf, file, sessions);
    var seals := SessionsOf(s, g, file, sessions).seals;
    if i < |seals| && j < |seals| && seals[i].iv == seals[j].iv {
      assert seals[i] in seals && seals[j] in seals;
      var b, m :| SealsChunk(seals[i], keyOf, file, b, m);
      var c, n :| SealsChunk(seals[j], keyOf, file, c, n);
      IvsAreDistinct(b, m, c, n);
      CounterNeverWraps(|file|);
    }
  }

  /** Any number of sessions, with any faults, and localStorage cleared before any of them. */
  method Sessions(g: Gcm, ghost keyOf: string -> Key, file: Bytes, disk: Disk, sessions: seq<Session>)
    returns (server: CiphertextStore, client: EncryptedUploader, outcomes: seq<Outcome>)
    requires Lawful(g) && disk in {File(None), Objects(map[])} && KeysOk(sessions, keyOf)
    ensures GoodKeys(sessions)
    ensures Upload(server.State(), client.stored, outcomes, client.seals)
            == SessionsOf(Server(Row(None, 0, None, None, false), disk, []), g, file, sessions)
    ensures Uploading(server.State(), g, keyOf, file)
    ensures server.complete ==>
      && server.totalBytes.Some? && server.ivBase.Some? && IsIvBase(server.ivBase.value)
      && var ciphertext := Read(server.disk, server.totalBytes.value);
         ciphertext.Some?
         && OpenFrom(g, keyOf(server.ivBase.value), server.ivBase.value, ciphertext.value, 0) == Some(file)
  {
    hide Read, OpenFrom, Inv, Lawful, SessionOf, CleanPuts, Mine, ChunkCount;
    server := new CiphertextStore(disk);
    client := new EncryptedUploader();
    outcomes := [];
    ghost var first := server.State();
    FreshIsUploading(first, g, keyOf, file);
    SessionsKeep(first, g, keyOf, file, sessions);
    for i := 0 to |sessions|
      invariant fresh(server) && fresh(client)
      invariant Uploading(server.State(), g, keyOf, file)
      invariant client.stored.Some? ==> KeyOk(client.stored.value, keyOf)
      invariant Upload(server.State(), client.stored, outcomes, client.seals)
                == SessionsOf(first, g, file, sessions[..i])
    {
      hide Uploading;
      assert sessions[..i + 1][..i] == sessions[..i];
      var s := sessions[i];
      assert s in sessions;
      if s.forget { client.stored := None; }
      var outcome := client.UploadEncrypted(server, g, keyOf, file, s.generated, s.statusLost, s.plan);
      outcomes := outcomes + [outcome];
    }
    assert sessions[..|sessions|] == sessions;
    if server.complete { CompleteOpens(server.State(), g, keyOf, file); }
  }

  lemma FreshIsUploading(s: Server, g: Gcm, keyOf: string -> Key, file: Bytes)
    requires Fresh(s)
    ensures Uploading(s, g, keyOf, file)
  {
    RunKeeps(s, []);
  }
}
