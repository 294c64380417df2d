/**
 * The USB mass-storage callbacks of src/main.c: the host sees the SD card
 * as one logical unit of 512-byte blocks once it is mounted, and the
 * READ(10)/WRITE(10) callbacks hand their transfers to the SD driver.
 *
 * The flag `sd_mounted` is a field; it is only ever set by
 * `init_sd_card`, after the driver initialized the card and FatFs mounted
 * it, so a mounted card is an initialized one.
 */
module Msc {
  import opened CTypes
  import opened SpiBus
  import opened SdProtocol
  import opened SdCard

  /** The block size reported to the host, in bytes. */
  const MSC_BLOCK_SIZE: U16 := 512

  /** What `tud_msc_capacity_cb` stores: the number of blocks and the block size. */
  datatype Capacity = Capacity(blockCount: U32, blockSize: U16)

  /** The result of a transfer callback: the number of bytes done as an `int32_t`, -1 for an error. */
  function Transferred(ok: bool, bufsize: U32): (r: int)
    ensures ok ==> r == ToInt32(bufsize)
    ensures !ok ==> r == -1
  {
    if ok then ToInt32(bufsize) else -1
  }

  class Storage {
    /** The card behind the logical unit. */
    const card: Card
    /** `sd_mounted`. */
    var mounted: bool

    /** The card is in a consistent state, and it is initialized whenever it is mounted. */
    ghost predicate Valid()
      reads this, card, card.bus
    {
      card.Valid() && (mounted ==> card.initialized)
    }

    /** Boot: nothing mounted yet. */
    constructor (card: Card)
      requires card.Valid()
      ensures this.card == card && Valid() && !mounted
    {
      this.card := card;
      mounted := false;
    }

    /**
     * The driver part of `init_sd_card`: the card is initialized, and it
     * counts as mounted when that succeeded and FatFs then mounted it
     * (`mountOk`, the outcome of `f_mount`, which is not modelled). The bus
     * log holds the bytes of `sd_init_driver` only: what `f_mount` itself
     * clocks out through the disk layer is not part of this model.
     */
    method Mount(rx: Stream, mountOk: bool)
      requires Valid()
      modifies this, card, card.bus
      ensures Valid()
      ensures var r := InitRun(rx, |old(card.bus.sent)|);
        && mounted == (old(mounted) || (r.ok && mountOk))
        && card.bus.sent == old(card.bus.sent) + r.tx
        && card.bus.levels == old(card.bus.levels) + Levels(false, WAKE_BYTES) + Levels(true, |r.tx| - WAKE_BYTES)
    {
      var code := card.Init(rx);
      if code == 0 {
        if mountOk {
          mounted := true;
        }
      }
    }

    /** `tud_msc_test_unit_ready_cb`: ready exactly when mounted, and then the card is initialized and holds its full capacity. */
    function TestUnitReady(): (ready: bool)
      requires Valid()
      reads this, card, card.bus
      ensures ready == mounted
      ensures ready ==> card.initialized && card.SectorsCount() == CARD_SECTORS
    {
      mounted
    }

    /** `tud_msc_capacity_cb`: blocks of 512 bytes, as many as the card has sectors when mounted, none otherwise. */
    function ReportCapacity(): (c: Capacity)
      requires Valid()
      reads this, card, card.bus
      ensures c.blockSize == BLOCK_SIZE
      ensures c.blockCount == if mounted then CARD_SECTORS else 0
    {
      Capacity(if mounted then card.SectorsCount() else 0, MSC_BLOCK_SIZE)
    }

    /** The first sector of a transfer: `lba + offset / 512` in `uint32_t` arithmetic. */
    static function FirstSector(lba: U32, offset: U32): U32
    {
      Add32(lba, offset / BLOCK_SIZE)
    }

    /**
     * `tud_msc_read10_cb`: -1 without touching the card or the buffer when
     * nothing is mounted; otherwise `bufsize / 512` sectors from
     * FirstSector on are read into the buffer as ReadBlocks says, and the
     * result is `bufsize` when all were read and -1 otherwise.
     */
    method Read10(rx: Stream, lba: U32, offset: U32, buffer: array<Byte>, bufsize: U32) returns (r: int)
      requires Valid()
      requires bufsize <= buffer.Length
      modifies card.bus, buffer
      ensures Valid()
      ensures !mounted ==> r == -1 && card.bus.sent == old(card.bus.sent) && card.bus.levels == old(card.bus.levels) && buffer[..] == old(buffer[..])
      ensures mounted ==>
        var t := ReadBlocks(rx, FirstSector(lba, offset), |old(card.bus.sent)|, bufsize / BLOCK_SIZE);
        && r == Transferred(t.ok, bufsize)
        && card.bus.sent == old(card.bus.sent) + t.tx
        && card.bus.levels == old(card.bus.levels) + Levels(true, |t.tx|)
        && forall m :: 0 <= m < buffer.Length ==> buffer[m] == if m < |t.data| then t.data[m] else old(buffer[m])
    {
      if !mounted {
        return -1;
      }
      var code := card.ReadSectors(rx, buffer, Add32(lba, offset / BLOCK_SIZE), bufsize / BLOCK_SIZE);
      if code == 0 {
        return ToInt32(bufsize);
      }
      return -1;
    }

    /**
     * `tud_msc_write10_cb`: -1 without touching the card when nothing is
     * mounted; otherwise `bufsize / 512` sectors of the buffer are written
     * from FirstSector on as WriteBlocks says, and the result is `bufsize`
     * when all were written and -1 otherwise.
     */
    method Write10(rx: Stream, lba: U32, offset: U32, buffer: array<Byte>, bufsize: U32) returns (r: int)
      requires Valid()
      requires bufsize <= buffer.Length
      modifies card.bus
      ensures Valid()
      ensures !mounted ==> r == -1 && card.bus.sent == old(card.bus.sent) && card.bus.levels == old(card.bus.levels)
      ensures mounted ==>
        var t := WriteBlocks(rx, FirstSector(lba, offset), buffer[..], |old(card.bus.sent)|, bufsize / BLOCK_SIZE);
        && r == Transferred(t.ok, bufsize)
        && card.bus.sent == old(card.bus.sent) + t.tx
        && card.bus.levels == old(card.bus.levels) + Levels(true, |t.tx|)
    {
      if !mounted {
        return -1;
      }
      var code := card.WriteSectors(rx, buffer, Add32(lba, offset / BLOCK_SIZE), bufsize / BLOCK_SIZE);
      if code == 0 {
        return ToInt32(bufsize);
      }
      return -1;
    }
  }

  /**
   * A transfer past the last 32-bit sector number wraps around to sector 0:
   * the driver is asked for sector `lba + offset / 512 - 2^32`.
   */
  lemma FirstSectorWraps(lba: U32, offset: U32)
    requires lba + offset / BLOCK_SIZE >= TWO_32
    ensures Storage.FirstSector(lba, offset) == lba + offset / BLOCK_SIZE - TWO_32
  {
  }

  /** A transfer of at most 2^31 - 1 bytes that succeeds reports exactly its size. */
  lemma SuccessReportsSize(bufsize: U32)
    requires bufsize < 0x8000_0000
    ensures Transferred(true, bufsize) == bufsize
    ensures Transferred(false, bufsize) == -1
  {
  }
}
