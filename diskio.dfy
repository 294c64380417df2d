/**
 * The FatFs block-device layer of src/diskio.c: drive 0 is the SD card of
 * module SdCard, every other drive number is refused before the driver is
 * touched, and the driver's 0/-1 results become FatFs status and result
 * codes. `get_fattime` gives every file the same fixed time stamp, in the
 * packed date/time layout of FAT directory entries.
 */
module DiskIo {
  import opened CTypes
  import opened SpiBus
  import opened SdProtocol
  import opened SdCard

  // ---------------------------------------------------------------------
  // FatFs status and result codes
  // ---------------------------------------------------------------------

  /** `DSTATUS`: a set of status bits. */
  type Status = Byte

  /** `STA_NOINIT`: the drive is not initialized. */
  const STA_NOINIT: Status := 0x01

  /** `DRESULT`. */
  datatype Result =
    | ResOk        // RES_OK: done
    | ResError     // RES_ERROR: the device failed
    | ResWrprt     // RES_WRPRT: write protected
    | ResNotrdy    // RES_NOTRDY: not ready
    | ResParerr    // RES_PARERR: invalid parameter

  // Control codes of disk_ioctl
  const CTRL_SYNC: Byte := 0
  const GET_SECTOR_COUNT: Byte := 1
  const GET_SECTOR_SIZE: Byte := 2
  const GET_BLOCK_SIZE: Byte := 3

  /** The one drive the firmware has. */
  const SD_DRIVE: Byte := 0

  /** The driver's result (0 for success, -1 for failure) as a FatFs result. */
  function DriverResult(code: int): (r: Result)
    ensures r == ResOk <==> code == 0
    ensures r != ResOk ==> r == ResError
  {
    if code == 0 then ResOk else ResError
  }

  // ---------------------------------------------------------------------
  // The drive
  // ---------------------------------------------------------------------

  /**
   * `disk_initialize`: STA_NOINIT without touching the card for any drive
   * but 0; for drive 0, `sd_init_driver` runs and the status is 0 exactly
   * when it succeeded.
   */
  method Initialize(card: Card, rx: Stream, pdrv: Byte) returns (status: Status)
    requires card.Valid()
    modifies card, card.bus
    ensures card.Valid()
    ensures pdrv != SD_DRIVE ==> status == STA_NOINIT && unchanged(card, card.bus)
    ensures pdrv == SD_DRIVE ==>
      var r := InitRun(rx, |old(card.bus.sent)|);
      && (status == 0 <==> r.ok)
      && (status != 0 ==> status == STA_NOINIT)
      && card.bus.sent == old(card.bus.sent) + r.tx
      && card.bus.levels == old(card.bus.levels) + Levels(false, WAKE_BYTES) + Levels(true, |r.tx| - WAKE_BYTES)
      && card.initialized == (r.ok || old(card.initialized))
  {
    if pdrv != SD_DRIVE {
      return STA_NOINIT;
    }
    var code := card.Init(rx);
    status := if code == 0 then 0 else STA_NOINIT;
  }

  /**
   * `disk_status`: STA_NOINIT for any drive but 0, and 0 for drive 0,
   * whether or not the card was ever initialized.
   */
  function DiskStatus(pdrv: Byte): (status: Status)
    ensures status == 0 <==> pdrv == SD_DRIVE
    ensures status != 0 ==> status == STA_NOINIT
  {
    if pdrv != SD_DRIVE then STA_NOINIT else 0
  }

  /**
   * `disk_read`: RES_PARERR without touching the card or the buffer for
   * any drive but 0; for drive 0, `sd_read_sectors` runs and the result is
   * RES_OK exactly when it succeeded.
   */
  method Read(card: Card, rx: Stream, pdrv: Byte, buff: array<Byte>, sector: U32, count: U32) returns (res: Result)
    requires card.Valid()
    requires BLOCK_SIZE * count <= buff.Length
    modifies card.bus, buff
    ensures card.Valid()
    ensures pdrv != SD_DRIVE ==> res == ResParerr && unchanged(card.bus, buff)
    ensures pdrv == SD_DRIVE && !card.initialized ==> res == ResError && card.bus.sent == old(card.bus.sent) && card.bus.levels == old(card.bus.levels) && buff[..] == old(buff[..])
    ensures pdrv == SD_DRIVE && card.initialized ==>
      var r := ReadBlocks(rx, sector, |old(card.bus.sent)|, count);
      && (res == ResOk <==> r.ok) && (res != ResOk ==> res == ResError)
      && card.bus.sent == old(card.bus.sent) + r.tx
      && card.bus.levels == old(card.bus.levels) + Levels(true, |r.tx|)
      && forall m :: 0 <= m < buff.Length ==> buff[m] == if m < |r.data| then r.data[m] else old(buff[m])
  {
    if pdrv != SD_DRIVE {
      return ResParerr;
    }
    var code := card.ReadSectors(rx, buff, sector, count);
    res := DriverResult(code);
  }

  /**
   * `disk_write`: RES_PARERR without touching the card for any drive but
   * 0; for drive 0, `sd_write_sectors` runs and the result is RES_OK
   * exactly when it succeeded. The buffer is only read.
   */
  method Write(card: Card, rx: Stream, pdrv: Byte, buff: array<Byte>, sector: U32, count: U32) returns (res: Result)
    requires card.Valid()
    requires BLOCK_SIZE * count <= buff.Length
    modifies card.bus
    ensures card.Valid()
    ensures pdrv != SD_DRIVE ==> res == ResParerr && unchanged(card.bus)
    ensures pdrv == SD_DRIVE && !card.initialized ==> res == ResError && card.bus.sent == old(card.bus.sent) && card.bus.levels == old(card.bus.levels)
    ensures pdrv == SD_DRIVE && card.initialized ==>
      var r := WriteBlocks(rx, sector, buff[..], |old(card.bus.sent)|, count);
      && (res == ResOk <==> r.ok) && (res != ResOk ==> res == ResError)
      && card.bus.sent == old(card.bus.sent) + r.tx
      && card.bus.levels == old(card.bus.levels) + Levels(true, |r.tx|)
  {
    if pdrv != SD_DRIVE {
      return ResParerr;
    }
    var code := card.WriteSectors(rx, buff, sector, count);
    res := DriverResult(code);
  }

  /** What `disk_ioctl` stores through `buff`. */
  datatype Out =
    | Untouched       // nothing written
    | Dword(d: U32)   // a DWORD
    | Word(w: U16)    // a WORD

  /** The result of `disk_ioctl` and what it stored. */
  datatype IoctlReply = IoctlReply(res: Result, out: Out)

  /**
   * `disk_ioctl` for a card whose `sd_get_sectors_count` is `sectors`:
   * RES_PARERR for any drive but 0 and for unknown control codes, leaving
   * `buff` alone; CTRL_SYNC does nothing; GET_SECTOR_COUNT stores the
   * card's count, GET_SECTOR_SIZE stores a WORD 512 and GET_BLOCK_SIZE a
   * DWORD 1 (an erase block of one sector).
   */
  function Ioctl(pdrv: Byte, cmd: Byte, sectors: U32): (r: IoctlReply)
    ensures r.res == ResOk <==> pdrv == SD_DRIVE && cmd <= GET_BLOCK_SIZE
    ensures r.res != ResOk ==> r == IoctlReply(ResParerr, Untouched)
    ensures r.out == Untouched <==> r.res != ResOk || cmd == CTRL_SYNC
    ensures r.res == ResOk && cmd == GET_SECTOR_COUNT ==> r.out == Dword(sectors)
    ensures r.res == ResOk && cmd == GET_SECTOR_SIZE ==> r.out == Word(BLOCK_SIZE)
    ensures r.res == ResOk && cmd == GET_BLOCK_SIZE ==> r.out == Dword(1)
  {
    if pdrv != SD_DRIVE then IoctlReply(ResParerr, Untouched)
    else if cmd == CTRL_SYNC then IoctlReply(ResOk, Untouched)
    else if cmd == GET_SECTOR_COUNT then IoctlReply(ResOk, Dword(sectors))
    else if cmd == GET_SECTOR_SIZE then IoctlReply(ResOk, Word(512))
    else if cmd == GET_BLOCK_SIZE then IoctlReply(ResOk, Dword(1))
    else IoctlReply(ResParerr, Untouched)
  }

  /** `disk_ioctl` on a card: the sector count is the driver's. */
  function CardIoctl(card: Card, pdrv: Byte, cmd: Byte): IoctlReply
    requires card.Valid()
    reads card, card.bus
  {
    Ioctl(pdrv, cmd, card.SectorsCount())
  }

  /**
   * The geometry FatFs reads from drive 0: before initialization zero
   * sectors (with RES_OK all the same), after it 2097152 sectors of 512
   * bytes in erase blocks of one sector.
   */
  lemma Geometry(card: Card)
    requires card.Valid()
    ensures CardIoctl(card, SD_DRIVE, GET_SECTOR_COUNT) == IoctlReply(ResOk, Dword(if card.initialized then CARD_SECTORS else 0))
    ensures CardIoctl(card, SD_DRIVE, GET_SECTOR_SIZE) == IoctlReply(ResOk, Word(BLOCK_SIZE))
    ensures CardIoctl(card, SD_DRIVE, GET_BLOCK_SIZE) == IoctlReply(ResOk, Dword(1))
  {
  }

  // ---------------------------------------------------------------------
  // Time stamps
  // ---------------------------------------------------------------------

  /** A date and time as a FAT directory entry can hold it. */
  datatype Stamp = Stamp(year: int, month: int, day: int, hour: int, minute: int, second: int)

  /** The ranges of the packed fields: years 1980 to 2107, and seconds in steps of two. */
  predicate InRange(t: Stamp)
  {
    && 1980 <= t.year <= 1980 + 127
    && 1 <= t.month <= 12
    && 1 <= t.day <= 31
    && 0 <= t.hour <= 23
    && 0 <= t.minute <= 59
    && 0 <= t.second <= 58 && t.second % 2 == 0
  }

  // Bit positions of the packed fields: year in bits 31..25, month 24..21,
  // day 20..16, hour 15..11, minute 10..5, seconds/2 4..0
  const YEAR_UNIT: nat := 0x200_0000
  const MONTH_UNIT: nat := 0x20_0000
  const DAY_UNIT: nat := 0x1_0000
  const HOUR_UNIT: nat := 0x800
  const MINUTE_UNIT: nat := 0x20

  /** A time stamp in the packed layout: each field shifted to its bit position. */
  function Pack(t: Stamp): U32
    requires InRange(t)
  {
    (t.year - 1980) * YEAR_UNIT + t.month * MONTH_UNIT + t.day * DAY_UNIT
      + t.hour * HOUR_UNIT + t.minute * MINUTE_UNIT + t.second / 2
  }

  /** The fields of a packed time stamp, taken off from the low end: seconds/2 in 5 bits, minute in 6, hour and day in 5, month in 4, the year offset in the 7 left. */
  function Unpack(d: U32): Stamp
  {
    var r1 := d / 32;
    var r2 := r1 / 64;
    var r3 := r2 / 32;
    var r4 := r3 / 32;
    Stamp(1980 + r4 / 16, r4 % 16, r3 % 32, r2 % 32, r1 % 64, 2 * (d % 32))
  }

  /** Unpacking a packed time stamp gives back every field. */
  lemma UnpackPack(t: Stamp)
    requires InRange(t)
    ensures Unpack(Pack(t)) == t
  {
    var d := Pack(t);
    var r4 := (t.year - 1980) * 16 + t.month;
    var r3 := r4 * 32 + t.day;
    var r2 := r3 * 32 + t.hour;
    var r1 := r2 * 64 + t.minute;
    assert d == r1 * 32 + t.second / 2;
    assert d / 32 == r1 && d % 32 == t.second / 2;
    assert r1 / 64 == r2 && r1 % 64 == t.minute;
    assert r2 / 32 == r3 && r2 % 32 == t.hour;
    assert r3 / 32 == r4 && r3 % 32 == t.day;
    assert r4 / 16 == t.year - 1980 && r4 % 16 == t.month;
  }

  /** Packing the fields of a time stamp whose fields are in range gives back the stamp. */
  lemma PackUnpack(d: U32)
    requires InRange(Unpack(d))
    ensures Pack(Unpack(d)) == d
  {
  }

  /** `get_fattime`: the fields of 1 January 2023, 00:00:00 shifted into place and combined, as the source writes it. */
  function FatTime(): (d: U32)
    ensures Unpack(d) == Stamp(2023, 1, 1, 0, 0, 0) && InRange(Unpack(d))
  {
    (((2023 - 1980) as bv32 << 25) | (1 as bv32 << 21) | (1 as bv32 << 16)
      | (0 as bv32 << 11) | (0 as bv32 << 5) | (0 as bv32 << 0)) as int
  }

  /** The time stamp is 0x56210000, the packed form of 1 January 2023, midnight. */
  lemma FatTimeIsNewYear2023()
    ensures FatTime() == 0x5621_0000 == Pack(Stamp(2023, 1, 1, 0, 0, 0))
  {
  }
}
