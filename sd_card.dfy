/**
 * The SD-card driver of src/sd_card.c: a card on an SPI bus, with the two
 * module-level variables `sd_sectors` and `sd_initialized` as fields.
 *
 * Each method is proved to do on the bus exactly what the functions of
 * module SdProtocol say of the replies the card gives it, so what is proved
 * there about those functions is what the driver promises. Every public
 * operation leaves chip select released (Valid).
 */
module SdCard {
  import opened CTypes
  import opened SpiBus
  import opened SdProtocol

  /** `buf` holds `got` at its start and, past it, what it held before (`orig`). */
  ghost predicate Filled(buf: array<Byte>, got: seq<Byte>, orig: seq<Byte>)
    reads buf
  {
    && |orig| == buf.Length
    && forall m :: 0 <= m < buf.Length ==> buf[m] == if m < |got| then got[m] else orig[m]
  }

  class Card {
    /** The SPI bus and chip-select line the card sits on. */
    const bus: Bus
    /** `sd_sectors`: the capacity in 512-byte sectors, 0 until initialization succeeds. */
    var sectors: U32
    /** `sd_initialized`. */
    var initialized: bool

    /** Between calls chip select is released, and the capacity is known exactly when the card was initialized. */
    ghost predicate Valid()
      reads this, bus
    {
      && !bus.selected
      && sectors == (if initialized then CARD_SECTORS else 0)
    }

    /** The driver's static state at boot, on a bus whose chip select the board code has already driven high. */
    constructor (bus: Bus)
      requires !bus.selected
      ensures this.bus == bus
      ensures Valid() && !initialized
    {
      this.bus := bus;
      sectors := 0;
      initialized := false;
    }

    /**
     * A polling loop: clock out 0xFF at least once and at most `bound`
     * times, stopping after the first reply `w` waits for; returns the last
     * reply read and the number of polls.
     */
    method Poll(rx: Stream, ghost k: nat, bound: nat, w: Wait) returns (last: Byte, n: nat)
      requires |bus.sent| == k && bound >= 1 && bus.selected
      modifies bus
      ensures n == Polls(rx, k, bound, w) && last == Last(rx, k, bound, w)
      ensures bus.sent == old(bus.sent) + Fills(n)
      ensures bus.levels == old(bus.levels) + Levels(true, n) && bus.selected
    {
      last := bus.Exchange(rx, FILL);
      n := 1;
      while !Ends(w, last) && n < bound
        invariant 1 <= n <= bound
        invariant bus.sent == old(bus.sent) + Fills(n)
        invariant last == At(rx, k + n - 1)
        invariant forall m :: k <= m < k + n - 1 ==> !Ends(w, At(rx, m))
        invariant bus.levels == old(bus.levels) + Levels(true, n) && bus.selected
        decreases bound - n
      {
        last := bus.Exchange(rx, FILL);
        n := n + 1;
      }
      PollsUnique(rx, k, bound, w, n);
    }

    /** The first half of `sd_send_command`: the six bytes of the command frame, with the CRC byte for CMD0 and CMD8. */
    method SendFrame(rx: Stream, cmd: Byte, arg: U32)
      requires bus.selected
      modifies bus
      ensures bus.sent == old(bus.sent) + Frame(cmd, arg)
      ensures bus.levels == old(bus.levels) + Levels(true, 6) && bus.selected
    {
      var crc: Byte := 0;
      if cmd == CMD0 {
        crc := 0x95;
      } else if cmd == CMD8 {
        crc := 0x87;
      }
      var b := bus.Exchange(rx, CommandByte(cmd));
      b := bus.Exchange(rx, arg / 0x100_0000 % 0x100);
      b := bus.Exchange(rx, arg / 0x1_0000 % 0x100);
      b := bus.Exchange(rx, arg / 0x100 % 0x100);
      b := bus.Exchange(rx, arg % 0x100);
      b := bus.Exchange(rx, crc);
      FrameBytes(old(bus.sent), cmd, arg, crc);
      SixLevels(old(bus.levels));
    }

    /** `sd_send_command`, its frame starting at exchange `k`: the six-byte frame, then up to ten polls for the R1 response. */
    method SendCommand(rx: Stream, ghost k: nat, cmd: Byte, arg: U32) returns (response: Byte)
      requires |bus.sent| == k && bus.selected
      modifies bus
      ensures var c := CommandReply(rx, k);
        && response == c.r1
        && bus.sent == old(bus.sent) + CommandTx(cmd, arg, c)
        && bus.levels == old(bus.levels) + Levels(true, Len(c))
      ensures bus.selected
    {
      SendFrame(rx, cmd, arg);
      var polls;
      response, polls := Poll(rx, k + 6, RESPONSE_POLLS, Response);
      MoreLevels(old(bus.levels), true, 6, polls);
    }

    /**
     * `sd_init_driver`: returns 0 and records the fixed capacity when the
     * card went through CMD0, CMD8, ACMD41 and CMD16 as InitRun says, and -1
     * otherwise, leaving the recorded state as it was; on the bus exactly
     * the bytes InitRun gives.
     */
    method Init(rx: Stream) returns (result: int)
      requires Valid()
      modifies this, bus
      ensures Valid()
      ensures var r := InitRun(rx, |old(bus.sent)|);
        && result == (if r.ok then 0 else -1)
        && bus.sent == old(bus.sent) + r.tx
        && bus.levels == old(bus.levels) + Levels(false, WAKE_BYTES) + Levels(true, |r.tx| - WAKE_BYTES)
        && initialized == (r.ok || old(initialized))
    {
      var ok := Boot(rx, Replier(rx), Passer(Replier(rx)));
      if !ok {
        return -1;
      }
      sectors := CARD_SECTORS;
      initialized := true;
      return 0;
    }

    /** The bus traffic of `sd_init_driver`, as InitRun says; true when every step succeeded. */
    method Boot(rx: Stream, ghost reply: nat -> Reply, ghost step: nat -> Pass) returns (ok: bool)
      requires IsReplier(rx, reply) && IsPasser(reply, step)
      modifies bus
      ensures InitDid(reply, step, old(bus.sent), bus.sent, ok)
      ensures bus.levels == old(bus.levels) + Levels(false, WAKE_BYTES) + Levels(true, |InitBy(reply, step, |old(bus.sent)|).tx| - WAKE_BYTES)
      ensures !bus.selected
    {
      ghost var base := bus.sent;
      var response := Reset(rx, reply, |base|);
      if response != R1_IDLE_STATE {
        InitRejectedDid(reply, step, base);
        return false;
      }
      ghost var reset := bus.sent;
      ok := Negotiate(rx, reply, step);
      InitAcceptedDid(reply, step, base);
      MoreLevels(old(bus.levels) + Levels(false, WAKE_BYTES), true, Len(reply(|base| + WAKE_BYTES)), |Configure(reply, step, |reset|).tx|);
    }

    /**
     * The rest of `sd_init_driver` once CMD0 answered the idle flag: CMD8,
     * the ACMD41 loop and CMD16(512), as Configure says; true when all of
     * them succeeded.
     */
    method Negotiate(rx: Stream, ghost reply: nat -> Reply, ghost step: nat -> Pass) returns (ok: bool)
      requires IsReplier(rx, reply) && IsPasser(reply, step)
      modifies bus
      ensures ConfigureDid(reply, step, old(bus.sent), bus.sent, ok)
      ensures bus.levels == old(bus.levels) + Levels(true, |Configure(reply, step, |old(bus.sent)|).tx|)
      ensures !bus.selected
    {
      ghost var base := bus.sent;
      CheckInterface(rx, reply, |base|);
      ghost var mid := bus.sent;
      var response := AwaitReady(rx, reply, step, |mid|);
      MoreLevels(old(bus.levels), true, |mid| - |base|, |bus.sent| - |mid|);
      if response != 0 {
        ConfigureNotReadyDid(reply, step, base);
        return false;
      }
      ghost var head := bus.sent;
      response := SetBlockLength(rx, reply, |head|);
      MoreLevels(old(bus.levels), true, |head| - |base|, |bus.sent| - |head|);
      ok := response == 0;
      ConfigureDoneDid(reply, step, base);
    }

    /** The start of `sd_init_driver`: the wake-up bytes, then CMD0 under its own chip select. */
    method Reset(rx: Stream, ghost reply: nat -> Reply, ghost k: nat) returns (response: Byte)
      requires IsReplier(rx, reply)
      requires |bus.sent| == k
      modifies bus
      ensures var idle := reply(k + WAKE_BYTES);
        && response == idle.r1
        && bus.sent == old(bus.sent) + ResetTx(idle)
        && bus.levels == old(bus.levels) + Levels(false, WAKE_BYTES) + Levels(true, Len(idle))
      ensures !bus.selected
    {
      Wake(rx);
      bus.Select();
      response := SendCommand(rx, k + WAKE_BYTES, CMD0, 0);
      bus.Deselect();
      AppendTwice(old(bus.sent), Fills(WAKE_BYTES), CommandTx(CMD0, 0, CommandReply(rx, k + WAKE_BYTES)));
    }

    /** CMD8 of `sd_init_driver` from exchange `k`, with the R7 tail read when it answered the idle flag, under one chip select. */
    method CheckInterface(rx: Stream, ghost reply: nat -> Reply, ghost k: nat)
      requires IsReplier(rx, reply)
      requires |bus.sent| == k
      modifies bus
      ensures bus.sent == old(bus.sent) + IfCondTx(reply(k)) && !bus.selected
      ensures bus.levels == old(bus.levels) + Levels(true, |IfCondTx(reply(k))|)
    {
      bus.Select();
      var response := SendCommand(rx, k, CMD8, IF_COND_ARG);
      if response == R1_IDLE_STATE {
        ReceiveR7(rx);
        MoreLevels(old(bus.levels), true, Len(CommandReply(rx, k)), R7_BYTES);
        AppendTwice(old(bus.sent), CommandTx(CMD8, IF_COND_ARG, CommandReply(rx, k)), Fills(R7_BYTES));
      } else {
        assert CommandTx(CMD8, IF_COND_ARG, CommandReply(rx, k)) + [] == CommandTx(CMD8, IF_COND_ARG, CommandReply(rx, k));
      }
      bus.Deselect();
    }

    /** CMD16(512) of `sd_init_driver` from exchange `k`, under its own chip select. */
    method SetBlockLength(rx: Stream, ghost reply: nat -> Reply, ghost k: nat) returns (response: Byte)
      requires IsReplier(rx, reply)
      requires |bus.sent| == k
      modifies bus
      ensures var c := reply(k);
        && response == c.r1
        && bus.sent == old(bus.sent) + CommandTx(CMD16, BLOCK_LEN_ARG, c)
        && bus.levels == old(bus.levels) + Levels(true, Len(c))
      ensures !bus.selected
    {
      bus.Select();
      response := SendCommand(rx, k, CMD16, BLOCK_LEN_ARG);
      bus.Deselect();
    }

    /** One pass of the ACMD41 loop of `sd_init_driver`, from exchange `k`: CMD55, then ACMD41 with HCS set, under one chip select. */
    method AppOp(rx: Stream, ghost reply: nat -> Reply, ghost step: nat -> Pass, ghost k: nat) returns (response: Byte)
      requires IsReplier(rx, reply) && IsPasser(reply, step)
      requires |bus.sent| == k
      modifies bus
      ensures var p := step(k);
        && response == p.r1
        && bus.sent == old(bus.sent) + p.tx
        && bus.levels == old(bus.levels) + Levels(true, |p.tx|)
      ensures !bus.selected
    {
      assert step(k) == AppPass(reply, k);
      ghost var app := CommandReply(rx, k);
      bus.Select();
      var ignored := SendCommand(rx, k, CMD55, 0);
      response := SendCommand(rx, k + Len(app), CMD41, HCS_ARG);
      bus.Deselect();
      MoreLevels(old(bus.levels), true, Len(app), Len(CommandReply(rx, k + Len(app))));
      AppendTwice(old(bus.sent), CommandTx(CMD55, 0, app), CommandTx(CMD41, HCS_ARG, CommandReply(rx, k + Len(app))));
    }

    /**
     * Where the ACMD41 loop of `sd_init_driver` stands, with `left` tries to
     * go after `done` passes that clocked out `sent` after `base`.
     */
    ghost predicate Awaiting(full: Tries, step: nat -> Pass, base: seq<Byte>, sent: seq<Byte>, left: nat, done: nat)
      reads this, bus
    {
      && bus.sent == base + sent && (done == 0 || !bus.selected)
      && AppOpResumes(full, step, |bus.sent|, left, done, sent)
    }

    /** One pass of the ACMD41 loop: either the loop ends with it, as `full` says, or it goes on. */
    method AwaitStep(rx: Stream, ghost reply: nat -> Reply, ghost step: nat -> Pass, ghost full: Tries, ghost base: seq<Byte>, ghost lbase: seq<bool>, ghost sent: seq<Byte>, left: nat, ghost done: nat)
      returns (response: Byte, ghost sent': seq<Byte>)
      requires IsReplier(rx, reply) && IsPasser(reply, step)
      requires Awaiting(full, step, base, sent, left, done)
      requires bus.levels == lbase + Levels(true, |sent|)
      modifies bus
      ensures !bus.selected && bus.sent == base + sent'
      ensures bus.levels == lbase + Levels(true, |sent'|)
      ensures response == 0 || left == 1 ==> full == Tries(response, done + 1, sent')
      ensures response != 0 && left > 1 ==> Awaiting(full, step, base, sent', left - 1, done + 1)
    {
      ghost var kc := |bus.sent|;
      response := AppOp(rx, reply, step, kc);
      AppOpNext(full, step, kc, left, done, sent);
      AppendTwice(base, sent, step(kc).tx);
      MoreLevels(lbase, true, |sent|, |step(kc).tx|);
      sent' := sent + step(kc).tx;
    }

    /**
     * The ACMD41 loop of `sd_init_driver`, from exchange `k`, its passes
     * made by `step`: up to 1000 passes, stopping at the first ACMD41 answer
     * 0, as AppOpLoop says.
     */
    method AwaitReady(rx: Stream, ghost reply: nat -> Reply, ghost step: nat -> Pass, ghost k: nat) returns (response: Byte)
      requires IsReplier(rx, reply) && IsPasser(reply, step)
      requires |bus.sent| == k
      modifies bus
      ensures var t := AppOpLoop(step, k, ACMD41_ATTEMPTS);
        && response == t.r1
        && bus.sent == old(bus.sent) + t.tx
        && bus.levels == old(bus.levels) + Levels(true, |t.tx|)
      ensures !bus.selected
    {
      ghost var base := bus.sent;
      ghost var full := AppOpLoop(step, k, ACMD41_ATTEMPTS);
      ghost var sent: seq<Byte> := [];
      ghost var done := 0;
      assert base + [] == base;
      var timeout: nat := ACMD41_ATTEMPTS;
      while true
        invariant 1 <= timeout
        invariant Awaiting(full, step, base, sent, timeout, done)
        invariant bus.levels == old(bus.levels) + Levels(true, |sent|)
        decreases timeout
      {
        response, sent := AwaitStep(rx, reply, step, full, base, old(bus.levels), sent, timeout, done);
        done := done + 1;
        if response == 0 {
          break;
        }
        timeout := timeout - 1;
        if timeout == 0 {
          break;
        }
      }
    }

    /** The first bytes of `sd_init_driver`: chip select released, ten 0xFF bytes to let the card wake up. */
    method Wake(rx: Stream)
      modifies bus
      ensures bus.sent == old(bus.sent) + Fills(WAKE_BYTES) && !bus.selected
      ensures bus.levels == old(bus.levels) + Levels(false, WAKE_BYTES)
    {
      bus.Deselect();
      var i := 0;
      while i < WAKE_BYTES
        invariant 0 <= i <= WAKE_BYTES
        invariant bus.sent == old(bus.sent) + Fills(i) && !bus.selected
        invariant bus.levels == old(bus.levels) + Levels(false, i)
      {
        var b := bus.Exchange(rx, FILL);
        i := i + 1;
      }
    }

    /** The four trailing bytes of the CMD8 (R7) response, read and otherwise ignored. */
    method ReceiveR7(rx: Stream)
      requires bus.selected
      modifies bus
      ensures bus.sent == old(bus.sent) + Fills(R7_BYTES) && bus.selected
      ensures bus.levels == old(bus.levels) + Levels(true, R7_BYTES)
    {
      var r7 := new Byte[R7_BYTES];
      var j := 0;
      while j < R7_BYTES
        invariant 0 <= j <= R7_BYTES
        invariant bus.sent == old(bus.sent) + Fills(j) && bus.selected
        invariant bus.levels == old(bus.levels) + Levels(true, j)
      {
        r7[j] := bus.Exchange(rx, FILL);
        j := j + 1;
      }
    }

    /**
     * The data phase of the loop in `sd_read_sectors` and the release of
     * chip select after it: the 512 replies from exchange `k` on into `buf`
     * from `offset` on, then two CRC bytes ignored.
     */
    method ReceiveBlock(rx: Stream, ghost k: nat, buf: array<Byte>, offset: nat)
      requires |bus.sent| == k && offset + BLOCK_SIZE <= buf.Length && bus.selected
      modifies bus, buf
      ensures forall m :: 0 <= m < buf.Length ==>
        buf[m] == if offset <= m < offset + BLOCK_SIZE then Replies(rx, k, BLOCK_SIZE)[m - offset] else old(buf[m])
      ensures bus.sent == old(bus.sent) + Fills(BLOCK_SIZE + 2) && !bus.selected
      ensures bus.levels == old(bus.levels) + Levels(true, BLOCK_SIZE + 2)
    {
      var j := 0;
      while j < BLOCK_SIZE + 2
        invariant 0 <= j <= BLOCK_SIZE + 2
        invariant bus.sent == old(bus.sent) + Fills(j)
        invariant bus.levels == old(bus.levels) + Levels(true, j) && bus.selected
        invariant forall m :: 0 <= m < buf.Length ==>
          buf[m] == if offset <= m < offset + j && m < offset + BLOCK_SIZE then At(rx, k + (m - offset)) else old(buf[m])
      {
        var d := bus.Exchange(rx, FILL);
        if j < BLOCK_SIZE {
          buf[offset + j] := d;
        }
        j := j + 1;
      }
      bus.Deselect();
      RepliesAt(rx, k, BLOCK_SIZE);
    }

    /**
     * The data phase of the loop in `sd_read_sectors`, from exchange `kt`:
     * up to 1000 polls for the start token, and, once it came, the block
     * into `buf` from `offset` on; chip select released at the end.
     */
    method ReceiveData(rx: Stream, ghost kt: nat, buf: array<Byte>, offset: nat) returns (ok: bool)
      requires |bus.sent| == kt && offset + BLOCK_SIZE <= buf.Length && bus.selected
      modifies bus, buf
      ensures var d := ReadData(rx, kt);
        && ok == d.Read?
        && bus.sent == old(bus.sent) + Fills(d.fills)
        && bus.levels == old(bus.levels) + Levels(true, d.fills)
        && forall m :: 0 <= m < buf.Length ==>
             buf[m] == if ok && offset <= m < offset + BLOCK_SIZE then Replies(rx, d.start, BLOCK_SIZE)[m - offset] else old(buf[m])
      ensures !bus.selected
    {
      var token, polls := Poll(rx, kt, TOKEN_POLLS, Token);
      if token != DATA_TOKEN {
        bus.Deselect();
        return false;
      }
      ReceiveBlock(rx, kt + polls, buf, offset);
      MoreLevels(old(bus.levels), true, polls, BLOCK_SIZE + 2);
      FillsAppend(polls, BLOCK_SIZE + 2);
      AppendTwice(old(bus.sent), Fills(polls), Fills(BLOCK_SIZE + 2));
      return true;
    }

    /**
     * One iteration of the loop in `sd_read_sectors`, its command starting
     * at exchange `k`, block `step(k)`: sector `lba` into `buf` from
     * `offset` on, which is written only once the start token has arrived.
     */
    method ReadOne(rx: Stream, ghost step: nat -> BlockRead, ghost k: nat, buf: array<Byte>, offset: nat, lba: U32) returns (ok: bool)
      requires IsBlockReader(rx, step)
      requires |bus.sent| == k && !bus.selected
      requires offset + BLOCK_SIZE <= buf.Length
      modifies bus, buf
      ensures var b := step(k);
        && ok == b.Read?
        && bus.sent == old(bus.sent) + ReadTx(lba, b)
        && bus.levels == old(bus.levels) + Levels(true, |ReadTx(lba, b)|)
        && forall m :: 0 <= m < buf.Length ==>
             buf[m] == if ok && offset <= m < offset + BLOCK_SIZE then Replies(rx, b.start, BLOCK_SIZE)[m - offset] else old(buf[m])
      ensures !bus.selected
    {
      assert step(k) == ReadBlock(rx, k);
      ghost var c := CommandReply(rx, k);
      bus.Select();
      var response := SendCommand(rx, k, CMD17, lba);
      if response != 0 {
        bus.Deselect();
        return false;
      }
      ok := ReceiveData(rx, k + Len(c), buf, offset);
      ghost var d := ReadData(rx, k + Len(c));
      MoreLevels(old(bus.levels), true, Len(c), d.fills);
      FillsAppend(c.polls, d.fills);
      AppendTwice(old(bus.sent) + Frame(CMD17, lba), Fills(c.polls), Fills(d.fills));
    }

    /**
     * Where the loop of `sd_read_sectors` stands after `i` of `count` blocks
     * of the transfer `full`: `sent` clocked out after `base`, `got` read
     * into the start of `buf` over what was `orig`, chip select released.
     */
    ghost predicate Reading(full: Transfer, rx: Stream, step: nat -> BlockRead, sector: U32, base: seq<Byte>, sent: seq<Byte>,
                            buf: array<Byte>, orig: seq<Byte>, got: seq<Byte>, i: nat, count: nat)
      reads this, bus, buf
    {
      && bus.sent == base + sent && !bus.selected
      && BLOCK_SIZE * count <= buf.Length && |got| == BLOCK_SIZE * i
      && Filled(buf, got, orig)
      && ReadResumes(full, rx, step, sector, |bus.sent|, i, count, got, sent)
    }

    /**
     * One pass of the loop of `sd_read_sectors`, for block `i` of `count`:
     * after it the loop either goes on with one block more in `buf`, or has
     * failed on this block as ReadBlocksBy says.
     */
    method ReadStep(rx: Stream, ghost step: nat -> BlockRead, ghost full: Transfer, ghost base: seq<Byte>, ghost lbase: seq<bool>, ghost sent: seq<Byte>,
                    buf: array<Byte>, ghost orig: seq<Byte>, ghost got: seq<Byte>, sector: U32, i: nat, count: nat)
      returns (ok: bool, ghost sent': seq<Byte>, ghost got': seq<Byte>)
      requires IsBlockReader(rx, step) && i < count
      requires Reading(full, rx, step, sector, base, sent, buf, orig, got, i, count)
      requires bus.levels == lbase + Levels(true, |sent|)
      modifies bus, buf
      ensures bus.levels == lbase + Levels(true, |sent'|)
      ensures ok ==> Reading(full, rx, step, sector, base, sent', buf, orig, got', i + 1, count)
      ensures !ok ==> full == Transfer(false, got', sent', i + 1) && bus.sent == base + sent' && !bus.selected && Filled(buf, got', orig)
    {
      ghost var kc := |bus.sent|;
      ok := ReadOne(rx, step, kc, buf, BLOCK_SIZE * i, SectorAt(sector, i));
      ghost var b := step(kc);
      ghost var tx := ReadTx(SectorAt(sector, i), b);
      ReadNext(full, rx, step, sector, kc, i, count, got, sent);
      AppendTwice(base, sent, tx);
      MoreLevels(lbase, true, |sent|, |tx|);
      sent' := sent + tx;
      got' := got;
      if ok {
        got' := got + Replies(rx, b.start, BLOCK_SIZE);
      }
    }

    /**
     * The loop of `sd_read_sectors` over `count` sectors from `sector` on,
     * into the start of `buf`, with its blocks read by `step`: as
     * ReadBlocksBy says, it stops at the first block that fails, with the
     * blocks before it already in `buf` and the rest of `buf` untouched.
     */
    method ReadLoop(rx: Stream, ghost step: nat -> BlockRead, buf: array<Byte>, ghost orig: seq<Byte>, sector: U32, count: U32) returns (ok: bool)
      requires IsBlockReader(rx, step)
      requires !bus.selected && BLOCK_SIZE * count <= buf.Length
      requires buf[..] == orig
      modifies bus, buf
      ensures !bus.selected
      ensures var r := ReadBlocksBy(rx, step, sector, |old(bus.sent)|, 0, count);
        && ok == r.ok
        && bus.sent == old(bus.sent) + r.tx
        && bus.levels == old(bus.levels) + Levels(true, |r.tx|)
        && Filled(buf, r.data, orig)
    {
      ghost var base := bus.sent;
      ghost var full := ReadBlocksBy(rx, step, sector, |base|, 0, count);
      ghost var sent: seq<Byte> := [];
      ghost var got: seq<Byte> := [];
      assert base + [] == base;
      ok := true;
      var i: nat := 0;
      while i < count as nat
        invariant i <= count as nat
        invariant Reading(full, rx, step, sector, base, sent, buf, orig, got, i, count as nat)
        invariant bus.levels == old(bus.levels) + Levels(true, |sent|)
      {
        ok, sent, got := ReadStep(rx, step, full, base, old(bus.levels), sent, buf, orig, got, sector, i, count as nat);
        if !ok {
          return;
        }
        i := i + 1;
      }
      ReadEnd(full, rx, step, sector, |bus.sent|, count as nat, got, sent);
    }

    /**
     * `sd_read_sectors`: -1 without touching the bus when the card was not
     * initialized; otherwise `count` sectors from `sector` on, into the start
     * of `buf`, as ReadBlocks says: 0 when all were read, -1 after the first
     * that failed, with the sectors before it already in `buf` and the rest
     * of `buf` untouched; on the bus exactly the bytes ReadBlocks gives.
     */
    method ReadSectors(rx: Stream, buf: array<Byte>, sector: U32, count: U32) returns (result: int)
      requires Valid()
      requires BLOCK_SIZE * count <= buf.Length
      modifies bus, buf
      ensures Valid()
      ensures !initialized ==> result == -1 && bus.sent == old(bus.sent) && bus.levels == old(bus.levels) && buf[..] == old(buf[..])
      ensures initialized ==>
        var r := ReadBlocks(rx, sector, |old(bus.sent)|, count);
        && result == (if r.ok then 0 else -1)
        && bus.sent == old(bus.sent) + r.tx
        && bus.levels == old(bus.levels) + Levels(true, |r.tx|)
        && forall m :: 0 <= m < buf.Length ==> buf[m] == if m < |r.data| then r.data[m] else old(buf[m])
    {
      if !initialized {
        return -1;
      }
      var ok := ReadLoop(rx, (s: nat) => ReadBlock(rx, s), buf, buf[..], sector, count);
      result := if ok then 0 else -1;
    }

    /** The data packet of the loop in `sd_write_sectors`: the start token, block `i` of `data` (which `buf` holds), two dummy CRC bytes. */
    method SendBlock(rx: Stream, buf: array<Byte>, ghost data: seq<Byte>, i: nat)
      requires buf[..] == data && BLOCK_SIZE * (i + 1) <= buf.Length
      requires bus.selected
      modifies bus
      ensures bus.sent == old(bus.sent) + BlockTx(BlockOf(data, i))
      ensures bus.levels == old(bus.levels) + Levels(true, BLOCK_SIZE + 3) && bus.selected
    {
      var offset := BLOCK_SIZE * i;
      var b := bus.Exchange(rx, DATA_TOKEN);
      var j := 0;
      while j < BLOCK_SIZE
        invariant 0 <= j <= BLOCK_SIZE
        invariant bus.sent == old(bus.sent) + [DATA_TOKEN] + data[offset .. offset + j]
        invariant bus.levels == old(bus.levels) + Levels(true, 1 + j) && bus.selected
      {
        b := bus.Exchange(rx, buf[offset + j]);
        assert data[offset .. offset + j] + [data[offset + j]] == data[offset .. offset + j + 1];
        j := j + 1;
      }
      b := bus.Exchange(rx, FILL);
      b := bus.Exchange(rx, FILL);
      MoreLevels(old(bus.levels), true, 1 + BLOCK_SIZE, 2);
      assert [FILL] + [FILL] == Fills(2);
      AppendTwice(old(bus.sent) + [DATA_TOKEN] + BlockOf(data, i), [FILL], [FILL]);
      AppendTwice(old(bus.sent), [DATA_TOKEN] + BlockOf(data, i), Fills(2));
      AppendTwice(old(bus.sent), [DATA_TOKEN], BlockOf(data, i));
    }

    /** Clock out 0xFF and read the reply on exchange `k`. */
    method Receive(rx: Stream, ghost k: nat) returns (b: Byte)
      requires |bus.sent| == k && bus.selected
      modifies bus
      ensures b == At(rx, k) && bus.sent == old(bus.sent) + [FILL]
      ensures bus.levels == old(bus.levels) + [true] && bus.selected
    {
      b := bus.Exchange(rx, FILL);
    }

    /**
     * The data phase of the loop in `sd_write_sectors`, its start token on
     * exchange `kt`: the data packet of block `i`, the data response, and,
     * when the card accepted the block, up to 1000 busy polls; the block
     * counts as written only when a non-zero byte ended the wait before the
     * counter ran out. Chip select released at the end.
     */
    method SendData(rx: Stream, ghost kt: nat, buf: array<Byte>, ghost data: seq<Byte>, i: nat) returns (ok: bool)
      requires |bus.sent| == kt && bus.selected
      requires buf[..] == data && BLOCK_SIZE * (i + 1) <= buf.Length
      modifies bus
      ensures var kr := kt + BLOCK_SIZE + 3;
        var busy := BusyPolls(rx, kr);
        && ok == (DataAccepted(At(rx, kr)) && BUSY_POLLS - busy != 0)
        && bus.sent == old(bus.sent) + BlockTx(BlockOf(data, i)) + [FILL] + Fills(busy)
        && bus.levels == old(bus.levels) + Levels(true, BLOCK_SIZE + 4 + busy)
      ensures !bus.selected
    {
      ghost var packet := BlockTx(BlockOf(data, i));
      SendBlock(rx, buf, data, i);
      var dataResponse := Receive(rx, kt + BLOCK_SIZE + 3);
      MoreLevels(old(bus.levels), true, BLOCK_SIZE + 3, 1);
      if !DataAccepted(dataResponse) {
        assert old(bus.sent) + packet + [FILL] + Fills(0) == old(bus.sent) + packet + [FILL];
        bus.Deselect();
        return false;
      }
      var last, polls := Poll(rx, kt + BLOCK_SIZE + 4, BUSY_POLLS, Release);
      MoreLevels(old(bus.levels), true, BLOCK_SIZE + 4, polls);
      var timeout := BUSY_POLLS - polls;
      bus.Deselect();
      ok := timeout != 0;
    }

    /**
     * One iteration of the loop in `sd_write_sectors`, its command starting
     * at exchange `k`, block `step(k)`: sector `lba` from block `i` of
     * `data`, which `buf` holds.
     */
    method WriteOne(rx: Stream, ghost step: nat -> BlockWrite, ghost k: nat, buf: array<Byte>, ghost data: seq<Byte>, i: nat, lba: U32) returns (ok: bool)
      requires IsBlockWriter(rx, step)
      requires |bus.sent| == k && !bus.selected
      requires buf[..] == data && BLOCK_SIZE * (i + 1) <= buf.Length
      modifies bus
      ensures var w := step(k);
        && ok == WriteOk(w)
        && bus.sent == old(bus.sent) + WriteTx(lba, BlockOf(data, i), w)
        && bus.levels == old(bus.levels) + Levels(true, WriteLen(w))
      ensures !bus.selected
    {
      assert step(k) == WriteBlock(rx, k);
      ghost var c := CommandReply(rx, k);
      ghost var cmd := CommandTx(CMD24, lba, c);
      bus.Select();
      var response := SendCommand(rx, k, CMD24, lba);
      if response != 0 {
        bus.Deselect();
        return false;
      }
      ok := SendData(rx, k + Len(c), buf, data, i);
      ghost var kr := k + Len(c) + BLOCK_SIZE + 3;
      ghost var busy := BusyPolls(rx, kr);
      ghost var block := BlockOf(data, i);
      AppendFour(old(bus.sent), cmd, BlockTx(block), [FILL], Fills(busy));
      if DataAccepted(At(rx, kr)) {
        assert step(k) == Waited(c, busy);
      } else {
        assert step(k) == Rejected(c);
        assert cmd + BlockTx(block) + [FILL] + Fills(busy) == cmd + BlockTx(block) + [FILL];
      }
      MoreLevels(old(bus.levels), true, Len(c), BLOCK_SIZE + 4 + busy);
    }

    /**
     * Where the loop of `sd_write_sectors` stands after `i` of `count` blocks
     * of the transfer `full`, written from `data`, which `buf` holds: `sent`
     * clocked out after `base`, chip select released.
     */
    ghost predicate Writing(full: Transfer, step: nat -> BlockWrite, sector: U32, base: seq<Byte>, sent: seq<Byte>,
                            buf: array<Byte>, data: seq<Byte>, i: nat, count: nat)
      reads this, bus, buf
    {
      && bus.sent == base + sent && !bus.selected
      && BLOCK_SIZE * count <= buf.Length && buf[..] == data
      && WriteResumes(full, step, sector, data, |bus.sent|, i, count, sent)
    }

    /**
     * One pass of the loop of `sd_write_sectors`, for block `i` of `count`:
     * after it the loop either goes on with the next block, or has failed on
     * this one as WriteBlocksBy says.
     */
    method WriteStep(rx: Stream, ghost step: nat -> BlockWrite, ghost full: Transfer, ghost base: seq<Byte>, ghost lbase: seq<bool>, ghost sent: seq<Byte>,
                     buf: array<Byte>, ghost data: seq<Byte>, sector: U32, i: nat, count: nat)
      returns (ok: bool, ghost sent': seq<Byte>)
      requires IsBlockWriter(rx, step) && i < count
      requires Writing(full, step, sector, base, sent, buf, data, i, count)
      requires bus.levels == lbase + Levels(true, |sent|)
      modifies bus
      ensures bus.levels == lbase + Levels(true, |sent'|)
      ensures ok ==> Writing(full, step, sector, base, sent', buf, data, i + 1, count)
      ensures !ok ==> full == Transfer(false, [], sent', i + 1) && bus.sent == base + sent' && !bus.selected
    {
      ghost var kc := |bus.sent|;
      ok := WriteOne(rx, step, kc, buf, data, i, SectorAt(sector, i));
      ghost var tx := WriteTx(SectorAt(sector, i), BlockOf(data, i), step(kc));
      WriteNext(full, step, sector, data, kc, i, count, sent);
      AppendTwice(base, sent, tx);
      MoreLevels(lbase, true, |sent|, |tx|);
      sent' := sent + tx;
    }

    /**
     * The loop of `sd_write_sectors` over the first `count` sectors of `buf`,
     * to `sector` on, with its blocks written by `step`: as WriteBlocksBy
     * says, it stops at the first block that fails.
     */
    method WriteLoop(rx: Stream, ghost step: nat -> BlockWrite, buf: array<Byte>, ghost data: seq<Byte>, sector: U32, count: U32) returns (ok: bool)
      requires IsBlockWriter(rx, step)
      requires !bus.selected && BLOCK_SIZE * count <= buf.Length
      requires buf[..] == data
      modifies bus
      ensures !bus.selected
      ensures var r := WriteBlocksBy(step, sector, data, |old(bus.sent)|, 0, count);
        && ok == r.ok
        && bus.sent == old(bus.sent) + r.tx
        && bus.levels == old(bus.levels) + Levels(true, |bus.sent| - |old(bus.sent)|)
    {
      ghost var base := bus.sent;
      ghost var full := WriteBlocksBy(step, sector, data, |base|, 0, count);
      ghost var sent: seq<Byte> := [];
      assert base + [] == base;
      var i: nat := 0;
      while i < count as nat
        invariant i <= count as nat
        invariant Writing(full, step, sector, base, sent, buf, data, i, count as nat)
        invariant bus.levels == old(bus.levels) + Levels(true, |sent|)
      {
        ok, sent := WriteStep(rx, step, full, base, old(bus.levels), sent, buf, data, sector, i, count as nat);
        if !ok {
          RunLevels(bus.levels, old(bus.levels), old(bus.sent), sent, bus.sent);
          return;
        }
        i := i + 1;
      }
      WriteEnd(full, step, sector, data, |bus.sent|, count as nat, sent);
      RunLevels(bus.levels, old(bus.levels), old(bus.sent), sent, bus.sent);
      return true;
    }

    /**
     * `sd_write_sectors`: -1 without touching the bus when the card was not
     * initialized; otherwise the first `count` sectors of `buf` to `sector`
     * on, as WriteBlocks says: 0 when all were written, -1 after the first
     * that failed; on the bus exactly the bytes WriteBlocks gives, each block
     * verbatim after its command and start token.
     */
    method WriteSectors(rx: Stream, buf: array<Byte>, sector: U32, count: U32) returns (result: int)
      requires Valid()
      requires BLOCK_SIZE * count <= buf.Length
      modifies bus
      ensures Valid()
      ensures !initialized ==> result == -1 && bus.sent == old(bus.sent) && bus.levels == old(bus.levels)
      ensures initialized ==>
        var r := WriteBlocks(rx, sector, old(buf[..]), |old(bus.sent)|, count);
        && result == (if r.ok then 0 else -1)
        && bus.sent == old(bus.sent) + r.tx
        && bus.levels == old(bus.levels) + Levels(true, |r.tx|)
    {
      if !initialized {
        return -1;
      }
      var ok := WriteLoop(rx, (s: nat) => WriteBlock(rx, s), buf, buf[..], sector, count);
      result := if ok then 0 else -1;
    }

    /** `sd_get_sectors_count`: the capacity, 0 before a successful initialization. */
    function SectorsCount(): (n: U32)
      requires Valid()
      reads this, bus
      ensures n == (if initialized then CARD_SECTORS else 0)
    {
      sectors
    }
  }
}
