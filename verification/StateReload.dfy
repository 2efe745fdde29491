/** From memory through the bytes of the state file and back: saving and loading as one transformation. */
module StateReload {
  import opened Bytes
  import opened Lifecycle
  import opened TelemetryModel
  import opened TelemetryInvariant
  import opened TelemetryCalls
  import opened Wire
  import opened StateCodec

  /** Larger state files are not read at all. */
  const MAX_STATE_FILE: nat := 1024 * 1024

  /** The facts the coordinator model uses about batches come from the batch codec. */
  ghost predicate Agrees(cfg: Config, c: BatchCodec) {
    forall b :: cfg.wireSize(b) == |c.encode(b)|
  }

  lemma GoodImageFits(cfg: Config, c: BatchCodec, img: Image, clk: nat)
    requires ImageOk(cfg, img, clk) && Agrees(cfg, c) && clk <= U64_MAX
    ensures Fits(c, STATE_VERSION, img)
  {
    hide ValidUtf8, HasNonzero;
  }

  lemma IdentityBounded(id: Identity)
    requires id.Valid() || id == UNBOUND
    ensures |IdentityBytes(id)| <= 328
  {
    hide Le, ValidUtf8;
  }

  lemma {:induction false} IdentitiesBounded(ids: seq<Identity>)
    requires forall id :: id in ids ==> id.Valid()
    ensures |IdentitiesBytes(ids)| <= 328 * |ids|
  {
    hide IdentityBytes, Identity.Valid;
    if ids != [] {
      IdentityBounded(ids[0]);
      IdentitiesBounded(ids[1..]);
    }
  }

  lemma PartsBounded(c: BatchCodec, h: Head, l: Losses, i: Intent)
    requires h.context.Valid() || h.context == UNBOUND
    requires c.Faithful()
    ensures |HeadBytes(STATE_VERSION, h)| <= 365 && |LossBytes(l)| == 32
    ensures |IntentBytes(c, STATE_VERSION, i)| <= MAX_BATCH_BYTES + 12
  {
    IdentityBounded(h.context);
    hide Le, IdentityBytes, Identity.Valid, StateByte;
    assert |PendingBytes(c, i.pending)| <= MAX_BATCH_BYTES;
    hide BatchCodec.Faithful, PendingBytes;
  }

  /** The read limit never stands in the way of a saved state. */
  lemma FileBounded(cfg: Config, c: BatchCodec, digest: seq<byte> -> Bytes32, img: Image, clk: nat)
    requires ImageOk(cfg, img, clk) && c.Faithful()
    ensures 0 < |Seal(digest, Payload(c, STATE_VERSION, img))| <= MAX_STATE_FILE
  {
    IdentitiesBounded(img.revoked);
    PartsBounded(c, HeadOf(img), LossesOf(img), Intent(img.pendingStarted, img.pending));
    hide Identity.Valid, IdentitiesBytes, HeadBytes, LossBytes, IntentBytes, Le, ValidUtf8, BatchCodec.Faithful;
  }

  /**
   * Whenever nothing is dirty, the bytes of the state file load back to the state in memory at any later time: the
   * loader accepts the file, and rebuilds every field and the whole archive, an enabled context coming back suspended.
   */
  lemma CleanFileReloads(s: Sys, p: Promise, c: BatchCodec, digest: seq<byte> -> Bytes32, later: nat, m: Mem)
    requires OpenOk(s, p) && !s.m.dirty && s.clk <= later
    requires c.Faithful() && Agrees(s.cfg, c) && s.clk <= U64_MAX
    ensures s.disk.state.Some?
    ensures var file := Seal(digest, Payload(c, STATE_VERSION, s.disk.state.value));
            && 0 < |file| <= MAX_STATE_FILE
            && LoadFile(c, digest, file).Some?
            && var loaded := LoadImage(s.cfg, LoadFile(c, digest, file).value.img, later, m);
               loaded.Some? && MemoryReloaded(s.m, loaded.value)
  {
    hide Tracked, History, LoadImage, Payload, LoadFile, BatchCodec.Faithful, Agrees, Fits, Seal, MemoryReloaded;
    CleanStateReloads(s, p, later, m);
    var img := s.disk.state.value;
    assert ImageOk(s.cfg, img, s.clk);
    hide ImageOk;
    GoodImageFits(s.cfg, c, img, s.clk);
    FileBounded(s.cfg, c, digest, img, s.clk);
    FileExact(c, digest, Seal(digest, Payload(c, STATE_VERSION, img)), STATE_VERSION, img);
  }

  /**
   * A state saved in the previous version, which could not hold a pending batch, still loads, with every field and the
   * whole archive, and is known to be old.
   */
  lemma OldFileReloads(cfg: Config, c: BatchCodec, digest: seq<byte> -> Bytes32, img: Image, clk: nat, later: nat,
                       m: Mem)
    requires ImageOk(cfg, img, clk) && img.pending.None? && clk <= later
    requires c.Faithful() && Agrees(cfg, c) && clk <= U64_MAX
    ensures var file := Seal(digest, Payload(c, OLD_VERSION, img));
            && LoadFile(c, digest, file) == Some(Stored(OLD_VERSION, img))
            && LoadImage(cfg, img, later, m).Some?
            && LoadImage(cfg, img, later, m).value.life == SavedLife(img).Disconnect()
  {
    hide LoadImage, Payload, LoadFile, BatchCodec.Faithful, Agrees, Seal, ArchiveOk;
    GoodImageLoads(cfg, img, clk, later, m);
    GoodImageFits(cfg, c, img, clk);
    FileExact(c, digest, Seal(digest, Payload(c, OLD_VERSION, img)), OLD_VERSION, img);
  }

  /** Two different saved states never share a file, whichever versions they are written in. */
  lemma FilesDiffer(c: BatchCodec, digest: seq<byte> -> Bytes32, v: nat, a: Image, w: nat, b: Image)
    requires c.Faithful() && Fits(c, v, a) && Fits(c, w, b)
    requires Seal(digest, Payload(c, v, a)) == Seal(digest, Payload(c, w, b))
    ensures v == w && a == b
  {
    hide Fits, Payload, LoadFile, Seal, BatchCodec.Faithful;
    FileExact(c, digest, Seal(digest, Payload(c, v, a)), v, a);
    FileExact(c, digest, Seal(digest, Payload(c, v, a)), w, b);
  }
}
