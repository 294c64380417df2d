/**
 * The SPI transport underneath the SD-card driver: one full-duplex byte
 * exchange and a chip-select line.
 *
 * The card is represented by the bytes it clocks back on MISO, one per
 * exchange. The driver is deterministic, so whatever a real card does, the
 * driver's behaviour against it equals its behaviour against the replies
 * that card produced along the run; a property proved for every reply
 * stream therefore holds for every card. A run is finite, so a finite
 * stream describes it; past its end the line floats high and reads 0xFF.
 */
module SpiBus {
  import opened CTypes

  /** The replies of the card: `rx[k]` is what it clocks back on exchange number `k`. */
  type Stream = seq<Byte>

  /** The filler byte the host clocks out while it only wants to listen, and what an undriven MISO line reads. */
  const FILL: Byte := 0xFF

  /** The reply on exchange `k`: 0xFF once the card has nothing more to say. */
  function At(rx: Stream, k: nat): Byte
  {
    if k < |rx| then rx[k] else FILL
  }

  /** The `n` replies that start at exchange `k`. */
  function Replies(rx: Stream, k: nat, n: nat): (s: seq<Byte>)
    ensures |s| == n
    decreases n, k
  {
    if n == 0 then [] else Replies(rx, k, n - 1) + [At(rx, k + n - 1)]
  }

  /** Reply `j` of those is the one on exchange `k + j`. */
  lemma {:induction false} RepliesAt(rx: Stream, k: nat, n: nat)
    ensures forall j :: 0 <= j < n ==> Replies(rx, k, n)[j] == At(rx, k + j)
  {
    if n > 0 {
      RepliesAt(rx, k, n - 1);
    }
  }

  /** `n` filler bytes, as clocked out by a host that is only listening. */
  function Fills(n: nat): (s: seq<Byte>)
    ensures |s| == n
    ensures forall j :: 0 <= j < n ==> s[j] == FILL
  {
    seq(n, _ => FILL)
  }

  /** Filler bytes clocked out in two runs are one longer run. */
  lemma {:induction false} FillsAppend(a: nat, b: nat)
    ensures Fills(a) + Fills(b) == Fills(a + b)
  {
    if b > 0 {
      FillsAppend(a, b - 1);
      assert Fills(a) + Fills(b) == Fills(a) + Fills(b - 1) + [FILL];
    }
  }

  /** Appending to a log in two steps or in one gives the same log. */
  lemma AppendTwice<T>(log: seq<T>, a: seq<T>, b: seq<T>)
    ensures log + a + b == log + (a + b)
  {
  }

  /** Appending to a log in four steps or in one gives the same log. */
  lemma AppendFour<T>(log: seq<T>, a: seq<T>, b: seq<T>, c: seq<T>, d: seq<T>)
    ensures log + a + b + c + d == log + (a + b + c + d)
  {
  }

  /** The chip-select levels of `n` exchanges all made with chip select asserted (`on`) or all with it released. */
  function Levels(on: bool, n: nat): (s: seq<bool>)
    ensures |s| == n
  {
    seq(n, _ => on)
  }

  /** Six exchanges made one by one with chip select asserted, as a record of levels. */
  lemma SixLevels(log: seq<bool>)
    ensures log + [true] + [true] + [true] + [true] + [true] + [true] == log + Levels(true, 6)
  {
    assert Levels(true, 6) == [true, true, true, true, true, true];
  }

  /** Two runs of exchanges at one chip-select level, appended to a record of levels, are one longer run. */
  lemma MoreLevels(log: seq<bool>, on: bool, a: nat, b: nat)
    ensures log + Levels(on, a) + Levels(on, b) == log + Levels(on, a + b)
  {
    assert Levels(on, a) + Levels(on, b) == Levels(on, a + b);
  }

  /** A run of bytes clocked out with chip select asserted throughout accounts for all the log grew by. */
  lemma RunLevels(levels: seq<bool>, before: seq<bool>, log: seq<Byte>, run: seq<Byte>, log': seq<Byte>)
    requires log' == log + run && levels == before + Levels(true, |run|)
    ensures levels == before + Levels(true, |log'| - |log|)
  {
  }

  class Bus {
    /** Everything the host has clocked out so far (MOSI), in order. */
    var sent: seq<Byte>
    /** Chip select asserted (the CS pin driven low). */
    var selected: bool
    /** The chip-select level during each exchange so far, in order: `levels[k]` is true when chip select was asserted during exchange `k`. */
    var levels: seq<bool>

    constructor ()
      ensures sent == [] && !selected && levels == []
    {
      sent := [];
      selected := false;
      levels := [];
    }

    /** `sd_spi_write`: clock one byte out and the card's answer in. */
    method Exchange(rx: Stream, out: Byte) returns (b: Byte)
      modifies this
      ensures sent == old(sent) + [out]
      ensures b == At(rx, |old(sent)|)
      ensures selected == old(selected)
      ensures levels == old(levels) + [selected]
    {
      b := At(rx, |sent|);
      sent := sent + [out];
      levels := levels + [selected];
    }

    /** `sd_cs_select`: drive CS low. */
    method Select()
      modifies this
      ensures selected && sent == old(sent) && levels == old(levels)
    {
      selected := true;
    }

    /** `sd_cs_deselect`: drive CS high. */
    method Deselect()
      modifies this
      ensures !selected && sent == old(sent) && levels == old(levels)
    {
      selected := false;
    }
  }
}
