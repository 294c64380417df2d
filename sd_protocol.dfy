/**
 * The SD-card SPI-mode wire protocol as the driver in src/sd_card.c speaks
 * it, written as pure functions of the card's reply stream.
 *
 * Every function here starts at exchange number `k` of the bus and says
 * what the driver computes from the replies it reads there and how many
 * exchanges it makes (`len`), so that the next step starts at `k + len`.
 * The driver class in module SdCard is proved to do exactly what these
 * functions say; the contracts and lemmas below state what the driver
 * therefore promises.
 */
module SdProtocol {
  import opened CTypes
  import opened SpiBus

  // SD command indices and R1 flag (src/sd_card.h)
  const CMD0: Byte := 0    // GO_IDLE_STATE
  const CMD8: Byte := 8    // SEND_IF_COND
  const CMD16: Byte := 16  // SET_BLOCKLEN
  const CMD17: Byte := 17  // READ_SINGLE_BLOCK
  const CMD24: Byte := 24  // WRITE_BLOCK
  const CMD41: Byte := 41  // SD_SEND_OP_COND (application command)
  const CMD55: Byte := 55  // APP_CMD
  const R1_IDLE_STATE: Byte := 0x01

  const IF_COND_ARG: U32 := 0x1AA       // 2.7-3.6 V, check pattern 0xAA
  const HCS_ARG: U32 := 0x4000_0000     // host capacity support
  const BLOCK_LEN_ARG: U32 := 512
  const DATA_TOKEN: Byte := 0xFE
  const BLOCK_SIZE: nat := 512
  const CARD_SECTORS: U32 := 2097152   // fixed capacity: 1 GiB of 512-byte sectors

  const WAKE_BYTES: nat := 10
  const RESPONSE_POLLS: nat := 10
  const R7_BYTES: nat := 4
  const ACMD41_ATTEMPTS: nat := 1000
  const TOKEN_POLLS: nat := 1000
  const BUSY_POLLS: nat := 1000

  /** A command as issued on the bus: its index and 32-bit argument. */
  datatype Command = Command(index: Byte, arg: U32)

  // ---------------------------------------------------------------------
  // Command framing
  // ---------------------------------------------------------------------

  /** The CRC byte: only CMD0 and CMD8 are checked while the card is in its boot mode. */
  function Crc(cmd: Byte): Byte
  {
    if cmd == CMD0 then 0x95 else if cmd == CMD8 then 0x87 else 0x00
  }

  /** `0x40 | cmd`: start bit 0, transmission bit 1, then the command index (bit 6 set). */
  function CommandByte(cmd: Byte): Byte
  {
    if cmd % 0x80 >= 0x40 then cmd else cmd + 0x40
  }

  /** The six bytes `sd_send_command` clocks out before it polls for the response. */
  function Frame(cmd: Byte, arg: U32): seq<Byte>
  {
    [CommandByte(cmd)] + ArgBytes(arg) + [Crc(cmd)]
  }

  /** The command frame, clocked out one byte at a time after a log. */
  lemma FrameBytes(log: seq<Byte>, cmd: Byte, arg: U32, crc: Byte)
    requires crc == Crc(cmd)
    ensures log + [CommandByte(cmd)] + [arg / 0x100_0000 % 0x100] + [arg / 0x1_0000 % 0x100]
              + [arg / 0x100 % 0x100] + [arg % 0x100] + [crc] == log + Frame(cmd, arg)
  {
  }

  /** Reads four bytes as a big-endian 32-bit number. */
  function BigEndian(b: seq<Byte>): int
    requires |b| == 4
  {
    b[0] as int * 0x100_0000 + b[1] as int * 0x1_0000 + b[2] as int * 0x100 + b[3] as int
  }

  /**
   * A frame is six bytes: the command byte, the argument most significant
   * byte first, then the CRC; for the 6-bit indices the command byte carries
   * the index in its low six bits under the 01 start/transmission prefix.
   */
  lemma FrameLayout(cmd: Byte, arg: U32)
    ensures |Frame(cmd, arg)| == 6
    ensures BigEndian(Frame(cmd, arg)[1..5]) == arg
    ensures Frame(cmd, arg)[5] == (if cmd == 0 then 0x95 else if cmd == 8 then 0x87 else 0x00)
    ensures cmd < 0x40 ==> Frame(cmd, arg)[0] == 0x40 + cmd
  {
    var f := Frame(cmd, arg);
    assert f[1..5] == ArgBytes(arg);
    ArgRoundTrip(arg);
  }

  /** The four argument bytes of a frame, most significant first. */
  function ArgBytes(arg: U32): (b: seq<Byte>)
    ensures |b| == 4
  {
    [arg / 0x100_0000 % 0x100, arg / 0x1_0000 % 0x100, arg / 0x100 % 0x100, arg % 0x100]
  }

  /** Splitting the argument into bytes and reading them back big-endian gives the argument. */
  lemma ArgRoundTrip(arg: U32)
    ensures BigEndian(ArgBytes(arg)) == arg
  {
    var q1 := arg / 0x100;
    var q2 := q1 / 0x100;
    var q3 := q2 / 0x100;
    assert arg == q1 * 0x100 + arg % 0x100;
    assert q1 == q2 * 0x100 + q1 % 0x100;
    assert q2 == q3 * 0x100 + q2 % 0x100;
    assert arg / 0x1_0000 == q2;
    assert arg / 0x100_0000 == q3 && q3 < 0x100;
  }

  // ---------------------------------------------------------------------
  // Polling
  // ---------------------------------------------------------------------

  /** What a polling loop waits for. */
  datatype Wait =
    | Response  // an R1 response: any byte other than 0xFF
    | Token     // the start-block token 0xFE
    | Release   // the end of the busy signal: any non-zero byte

  predicate Ends(w: Wait, b: Byte)
  {
    match w
    case Response => b != FILL
    case Token => b == DATA_TOKEN
    case Release => b != 0
  }

  /**
   * How many replies, from exchange `k` up to (not including) exchange
   * `end`, come before the first one the loop waits for (all of them when
   * none does).
   */
  function FirstEnd(rx: Stream, k: nat, end: nat, w: Wait): (i: nat)
    requires k <= end
    ensures k + i <= end
    ensures k + i < end ==> Ends(w, At(rx, k + i))
    decreases end - k
  {
    if k == end || Ends(w, At(rx, k)) then 0 else 1 + FirstEnd(rx, k + 1, end, w)
  }

  /** Every reply FirstEnd counts is one the loop does not wait for. */
  lemma {:induction false} FirstEndSkips(rx: Stream, k: nat, end: nat, w: Wait)
    requires k <= end
    ensures forall m :: k <= m < k + FirstEnd(rx, k, end, w) ==> !Ends(w, At(rx, m))
    decreases end - k
  {
    if k < end && !Ends(w, At(rx, k)) {
      FirstEndSkips(rx, k + 1, end, w);
    }
  }

  /**
   * Exchanges made by a loop that polls at least once and at most `bound`
   * times, stopping right after the first awaited reply: it only stops
   * early on an awaited one.
   */
  function Polls(rx: Stream, k: nat, bound: nat, w: Wait): (n: nat)
    requires bound >= 1
    ensures 1 <= n <= bound
    ensures n < bound ==> Ends(w, At(rx, k + n - 1))
  {
    var i := FirstEnd(rx, k, k + bound, w);
    if i < bound then i + 1 else bound
  }

  /** Every reply such a loop reads before the last one is one it does not wait for. */
  lemma PollsSkip(rx: Stream, k: nat, bound: nat, w: Wait)
    requires bound >= 1
    ensures forall m :: k <= m < k + Polls(rx, k, bound, w) - 1 ==> !Ends(w, At(rx, m))
  {
    FirstEndSkips(rx, k, k + bound, w);
  }

  /** The last reply such a loop reads: the one it stopped on. */
  function Last(rx: Stream, k: nat, bound: nat, w: Wait): Byte
    requires bound >= 1
  {
    At(rx, k + Polls(rx, k, bound, w) - 1)
  }

  /** Some reply among the `bound` from exchange `k` on is one the loop waits for. */
  predicate Arrives(rx: Stream, k: nat, bound: nat, w: Wait)
  {
    exists t :: k <= t < k + bound && Ends(w, At(rx, t))
  }

  /**
   * A loop of at most `bound` polls ends on an awaited reply exactly when
   * one arrives within those polls.
   */
  lemma PollsFindFirst(rx: Stream, k: nat, bound: nat, w: Wait)
    requires bound >= 1
    ensures Arrives(rx, k, bound, w) <==> Ends(w, At(rx, k + Polls(rx, k, bound, w) - 1))
  {
    var n := Polls(rx, k, bound, w);
    PollsSkip(rx, k, bound, w);
    if Arrives(rx, k, bound, w) {
      var t :| k <= t < k + bound && Ends(w, At(rx, t));
      assert t >= k + n - 1;
    }
  }

  /**
   * The poll count is determined by the replies: a count that polled only
   * unawaited replies before its last one, and stopped early only on an
   * awaited one, is the one Polls gives.
   */
  lemma PollsUnique(rx: Stream, k: nat, bound: nat, w: Wait, n: nat)
    requires 1 <= n <= bound
    requires forall m :: k <= m < k + n - 1 ==> !Ends(w, At(rx, m))
    requires n < bound ==> Ends(w, At(rx, k + n - 1))
    ensures n == Polls(rx, k, bound, w)
  {
    PollsSkip(rx, k, bound, w);
  }

  // ---------------------------------------------------------------------
  // Commands (sd_send_command)
  // ---------------------------------------------------------------------

  /** The R1 byte a command got, and how many 0xFF bytes were clocked out to get it. */
  datatype Reply = Reply(r1: Byte, polls: nat)

  /** Exchanges a command takes: its frame and its polls. */
  function Len(c: Reply): nat
  {
    6 + c.polls
  }

  /**
   * `sd_send_command` with its frame starting at exchange `k`: after the six
   * frame bytes it polls at most ten times and returns the last byte read.
   */
  function CommandReply(rx: Stream, k: nat): (c: Reply)
    ensures 1 <= c.polls <= RESPONSE_POLLS
    ensures c.r1 == At(rx, k + 5 + c.polls)
  {
    Reply(Last(rx, k + 6, RESPONSE_POLLS, Response), Polls(rx, k + 6, RESPONSE_POLLS, Response))
  }

  /**
   * The response is the first reply after the frame that is not 0xFF, and
   * it is 0xFF exactly when all ten polled replies were: a card that does
   * not answer within ten bytes reads as 0xFF.
   */
  lemma CommandResponse(rx: Stream, k: nat)
    ensures var c := CommandReply(rx, k);
      && (forall m :: k + 6 <= m < k + 5 + c.polls ==> At(rx, m) == FILL)
      && (c.r1 == FILL <==> forall m :: k + 6 <= m < k + 6 + RESPONSE_POLLS ==> At(rx, m) == FILL)
      && (c.r1 == FILL ==> c.polls == RESPONSE_POLLS)
  {
    var c := CommandReply(rx, k);
    PollsSkip(rx, k + 6, RESPONSE_POLLS, Response);
    PollsFindFirst(rx, k + 6, RESPONSE_POLLS, Response);
    forall m | k + 6 <= m < k + 5 + c.polls
      ensures At(rx, m) == FILL
    {
      assert !Ends(Response, At(rx, m));
    }
    forall m | k + 6 <= m < k + 6 + RESPONSE_POLLS && c.r1 == FILL
      ensures At(rx, m) == FILL
    {
      assert !Ends(Response, At(rx, m));
    }
  }

  /** The bytes a command clocks out: its frame, then one 0xFF per poll. */
  function CommandTx(cmd: Byte, arg: U32, c: Reply): (tx: seq<Byte>)
    ensures |tx| == Len(c)
  {
    Frame(cmd, arg) + Fills(c.polls)
  }

  // ---------------------------------------------------------------------
  // Initialization (sd_init_driver)
  // ---------------------------------------------------------------------

  /** The bytes of the wake-up and of CMD0, which got the reply `idle`: ten 0xFF bytes, then the command. */
  function ResetTx(idle: Reply): (tx: seq<Byte>)
    ensures |tx| == WAKE_BYTES + Len(idle)
  {
    Fills(WAKE_BYTES) + CommandTx(CMD0, 0, idle)
  }

  /** The bytes of CMD8, which got the reply `ifc`: the command, and four more 0xFF bytes for the R7 tail when it answered the idle flag. */
  function IfCondTx(ifc: Reply): (tx: seq<Byte>)
    ensures |tx| == Len(ifc) + (if ifc.r1 == R1_IDLE_STATE then R7_BYTES else 0)
  {
    CommandTx(CMD8, IF_COND_ARG, ifc) + (if ifc.r1 == R1_IDLE_STATE then Fills(R7_BYTES) else [])
  }

  /** The outcome of the CMD55 + ACMD41 loop: the last ACMD41 response, how many pairs were sent, and the bytes clocked out. */
  datatype Tries = Tries(r1: Byte, count: nat, tx: seq<Byte>)

  /** One pass of that loop: the ACMD41 response and the bytes clocked out. */
  datatype Pass = Pass(r1: Byte, tx: seq<Byte>)

  /** The bytes of one pass whose CMD55 got `app` and whose ACMD41 got `op`. */
  function AppOpTx(app: Reply, op: Reply): (tx: seq<Byte>)
    ensures |tx| == Len(app) + Len(op)
  {
    CommandTx(CMD55, 0, app) + CommandTx(CMD41, HCS_ARG, op)
  }

  /** `reply` gives the reply of a command whose frame starts at any exchange, as CommandReply does. */
  ghost predicate IsReplier(rx: Stream, reply: nat -> Reply)
  {
    forall k {:trigger CommandReply(rx, k)} :: reply(k) == CommandReply(rx, k)
  }

  /** The replies the card gives, as a function of where each command starts. */
  function Replier(rx: Stream): (reply: nat -> Reply)
    ensures IsReplier(rx, reply)
  {
    (k: nat) => CommandReply(rx, k)
  }

  /** The pass from exchange `k` with the replies `reply` gives: CMD55, then ACMD41, each with its polls. */
  function AppPass(reply: nat -> Reply, k: nat): Pass
  {
    var app := reply(k);
    var op := reply(k + Len(app));
    Pass(op.r1, AppOpTx(app, op))
  }

  /** `step` makes a pass as AppPass does with the replies `reply` gives, wherever it starts. */
  ghost predicate IsPasser(reply: nat -> Reply, step: nat -> Pass)
  {
    forall s {:trigger AppPass(reply, s)} :: step(s) == AppPass(reply, s)
  }

  /** The passes made with the replies `reply` gives, as a function of where each starts. */
  function Passer(reply: nat -> Reply): (step: nat -> Pass)
    ensures IsPasser(reply, step)
  {
    (s: nat) => AppPass(reply, s)
  }

  /**
   * The CMD55 + ACMD41 loop of `sd_init_driver` with `attempts` tries left,
   * its passes made by `step` from exchange `k` on: it stops as soon as
   * ACMD41 answers 0 and otherwise after the last try. It sends at least
   * one and at most `attempts` pairs, and gives up (last answer not 0) only
   * after all of them.
   */
  function AppOpLoop(step: nat -> Pass, k: nat, attempts: nat): (t: Tries)
    requires attempts >= 1
    ensures 1 <= t.count <= attempts
    ensures t.r1 != 0 ==> t.count == attempts
    decreases attempts, k
  {
    var p := step(k);
    if p.r1 == 0 || attempts == 1 then Tries(p.r1, 1, p.tx)
    else
      var more := AppOpLoop(step, k + |p.tx|, attempts - 1);
      Tries(more.r1, more.count + 1, p.tx + more.tx)
  }

  /** With the card's replies each pass takes between 14 and 32 exchanges, so the whole loop takes between 14 and 32 per pass. */
  lemma {:induction false} AppOpLoopBytes(rx: Stream, reply: nat -> Reply, step: nat -> Pass, k: nat, attempts: nat)
    requires IsReplier(rx, reply) && IsPasser(reply, step) && attempts >= 1
    ensures var t := AppOpLoop(step, k, attempts); 14 * t.count <= |t.tx| <= 32 * t.count
    decreases attempts
  {
    var p := step(k);
    assert p == AppPass(reply, k);
    var app := CommandReply(rx, k);
    var op := CommandReply(rx, k + Len(app));
    if p.r1 != 0 && attempts > 1 {
      AppOpLoopBytes(rx, reply, step, k + |p.tx|, attempts - 1);
    }
  }

  /**
   * The loop of `sd_init_driver`, after `done` pairs that clocked out
   * `sent`, with `left` tries to go and its next pair starting at exchange
   * `kc`, ends as `full` does.
   */
  ghost predicate AppOpResumes(full: Tries, step: nat -> Pass, kc: nat, left: nat, done: nat, sent: seq<Byte>)
  {
    left >= 1 && full == AfterTries(done, sent, AppOpLoop(step, kc, left))
  }

  /** A loop that, after `done` pairs that clocked out `sent`, goes on as `rest`. */
  function AfterTries(done: nat, sent: seq<Byte>, rest: Tries): (t: Tries)
    ensures t.r1 == rest.r1 && t.count == done + rest.count && t.tx == sent + rest.tx
  {
    Tries(rest.r1, done + rest.count, sent + rest.tx)
  }

  /**
   * One more pair of the loop: it ends the loop, with the answer of its
   * ACMD41, exactly when that answer is 0 or it was the last try.
   */
  lemma AppOpNext(full: Tries, step: nat -> Pass, kc: nat, left: nat, done: nat, sent: seq<Byte>)
    requires AppOpResumes(full, step, kc, left, done, sent)
    ensures var p := step(kc);
      && (p.r1 == 0 || left == 1 ==> full == Tries(p.r1, done + 1, sent + p.tx))
      && (p.r1 != 0 && left > 1 ==> AppOpResumes(full, step, kc + |p.tx|, left - 1, done + 1, sent + p.tx))
  {
    var p := step(kc);
    if p.r1 != 0 && left > 1 {
      var more := AppOpLoop(step, kc + |p.tx|, left - 1);
      assert sent + (p.tx + more.tx) == sent + p.tx + more.tx;
    }
  }

  /** The commands of `n` CMD55 + ACMD41 pairs: CMD55 (argument 0) at every even position, ACMD41 (HCS set) at every odd one. */
  function AppOps(n: nat): seq<Command>
  {
    seq(2 * n, j => if j % 2 == 0 then Command(CMD55, 0) else Command(CMD41, HCS_ARG))
  }

  /** CMD0, CMD8, then `n` CMD55 + ACMD41 pairs. */
  function InitHead(n: nat): seq<Command>
  {
    [Command(CMD0, 0), Command(CMD8, IF_COND_ARG)] + AppOps(n)
  }

  /** What `sd_init_driver` did: success, the ACMD41 tries (0 when it stopped before), the commands in order, and the bytes clocked out. */
  datatype Startup = Startup(ok: bool, tries: nat, cmds: seq<Command>, tx: seq<Byte>)

  /**
   * `sd_init_driver` from exchange `k` on a card that replies to commands as
   * `reply` says and to the ACMD41 loop as `step` says: ten wake-up bytes,
   * CMD0, and, when CMD0 answered the idle flag, the rest of the run as
   * Configure says.
   */
  function InitBy(reply: nat -> Reply, step: nat -> Pass, k: nat): (r: Startup)
    ensures r.ok ==> reply(k + WAKE_BYTES).r1 == R1_IDLE_STATE
    ensures WAKE_BYTES < |r.tx|
  {
    var idle := reply(k + WAKE_BYTES);
    var reset := ResetTx(idle);
    if idle.r1 != R1_IDLE_STATE then Startup(false, 0, [Command(CMD0, 0)], reset)
    else
      var c := Configure(reply, step, k + |reset|);
      c.(tx := reset + c.tx)
  }

  /** `sd_init_driver` from exchange `k` on the card whose replies are `rx`. */
  function InitRun(rx: Stream, k: nat): Startup
  {
    InitBy(Replier(rx), Passer(Replier(rx)), k)
  }

  /**
   * The rest of `sd_init_driver` once CMD0 answered the idle flag, from
   * exchange `k`: CMD8 (and four trailing R7 bytes when it answers the idle
   * flag), the ACMD41 loop, then CMD16(512) when the loop ended on 0. A step
   * that fails ends the run.
   */
  function Configure(reply: nat -> Reply, step: nat -> Pass, k: nat): (r: Startup)
  {
    var cond := IfCondTx(reply(k));
    var loop := AppOpLoop(step, k + |cond|, ACMD41_ATTEMPTS);
    var head := cond + loop.tx;
    if loop.r1 != 0 then Startup(false, loop.count, InitHead(loop.count), head)
    else
      var blen := reply(k + |head|);
      Startup(blen.r1 == 0, loop.count, InitHead(loop.count) + [Command(CMD16, BLOCK_LEN_ARG)], head + CommandTx(CMD16, BLOCK_LEN_ARG, blen))
  }

  /** A run of `sd_init_driver` that found the bus at `before` left it at `after` and reported `ok`, as InitBy says. */
  ghost predicate InitDid(reply: nat -> Reply, step: nat -> Pass, before: seq<Byte>, after: seq<Byte>, ok: bool)
  {
    var r := InitBy(reply, step, |before|);
    ok == r.ok && after == before + r.tx
  }

  /** The steps after CMD0 found the bus at `before`, left it at `after` and reported `ok`, as Configure says. */
  ghost predicate ConfigureDid(reply: nat -> Reply, step: nat -> Pass, before: seq<Byte>, after: seq<Byte>, ok: bool)
  {
    var r := Configure(reply, step, |before|);
    ok == r.ok && after == before + r.tx
  }

  /** CMD8 after `before`, then an ACMD41 loop that gave up, is a failed run of the steps after CMD0. */
  lemma ConfigureNotReadyDid(reply: nat -> Reply, step: nat -> Pass, before: seq<Byte>)
    requires var cond := IfCondTx(reply(|before|));
      AppOpLoop(step, |before + cond|, ACMD41_ATTEMPTS).r1 != 0
    ensures var cond := IfCondTx(reply(|before|));
      var loop := AppOpLoop(step, |before + cond|, ACMD41_ATTEMPTS);
      ConfigureDid(reply, step, before, before + cond + loop.tx, false)
  {
    var cond := IfCondTx(reply(|before|));
    var loop := AppOpLoop(step, |before + cond|, ACMD41_ATTEMPTS);
    assert before + cond + loop.tx == before + (cond + loop.tx);
  }

  /**
   * CMD8 after `before`, an ACMD41 loop that ended on 0, then CMD16, are
   * the steps after CMD0, and they succeed exactly when CMD16 answers 0.
   */
  lemma ConfigureDoneDid(reply: nat -> Reply, step: nat -> Pass, before: seq<Byte>)
    requires var cond := IfCondTx(reply(|before|));
      AppOpLoop(step, |before + cond|, ACMD41_ATTEMPTS).r1 == 0
    ensures var cond := IfCondTx(reply(|before|));
      var loop := AppOpLoop(step, |before + cond|, ACMD41_ATTEMPTS);
      var blen := reply(|before + cond + loop.tx|);
      ConfigureDid(reply, step, before, before + cond + loop.tx + CommandTx(CMD16, BLOCK_LEN_ARG, blen), blen.r1 == 0)
  {
    var cond := IfCondTx(reply(|before|));
    var loop := AppOpLoop(step, |before + cond|, ACMD41_ATTEMPTS);
    var blen := CommandTx(CMD16, BLOCK_LEN_ARG, reply(|before + cond + loop.tx|));
    assert before + cond + loop.tx + blen == before + (cond + loop.tx + blen);
  }

  /** CMD0 without the idle flag after `before` is a whole failed run. */
  lemma InitRejectedDid(reply: nat -> Reply, step: nat -> Pass, before: seq<Byte>)
    requires reply(|before| + WAKE_BYTES).r1 != R1_IDLE_STATE
    ensures InitDid(reply, step, before, before + ResetTx(reply(|before| + WAKE_BYTES)), false)
  {
  }

  /** CMD0 with the idle flag after `before`, then the rest of the run as Configure says, is a whole run. */
  lemma InitAcceptedDid(reply: nat -> Reply, step: nat -> Pass, before: seq<Byte>)
    requires reply(|before| + WAKE_BYTES).r1 == R1_IDLE_STATE
    ensures var reset := ResetTx(reply(|before| + WAKE_BYTES));
      var c := Configure(reply, step, |before + reset|);
      InitDid(reply, step, before, before + reset + c.tx, c.ok)
  {
    var reset := ResetTx(reply(|before| + WAKE_BYTES));
    var c := Configure(reply, step, |before + reset|);
    assert before + reset + c.tx == before + (reset + c.tx);
  }

  /**
   * `sd_init_driver` succeeds exactly when CMD0 answers the idle flag, the
   * ACMD41 loop ends on an answer of 0, and CMD16 then answers 0; the answer
   * to CMD8 is not among the conditions (it only decides whether the R7
   * tail is drained).
   */
  lemma InitSucceeds(reply: nat -> Reply, step: nat -> Pass, k: nat)
    ensures var idle := reply(k + WAKE_BYTES);
      var kc := k + WAKE_BYTES + Len(idle);
      var cond := IfCondTx(reply(kc));
      var loop := AppOpLoop(step, kc + |cond|, ACMD41_ATTEMPTS);
      var blen := reply(kc + |cond| + |loop.tx|);
      InitBy(reply, step, k).ok <==> idle.r1 == R1_IDLE_STATE && loop.r1 == 0 && blen.r1 == 0
  {
  }

  /**
   * The commands of `sd_init_driver`, in order: CMD0 always first, and alone
   * exactly when it does not answer the idle flag; otherwise CMD8, then
   * between one and 1000 CMD55 + ACMD41 pairs, then CMD16(512) exactly when
   * the loop stopped on an ACMD41 answer of 0, which it always has when it
   * stopped before the 1000th pair. A successful run issued CMD16 last.
   */
  lemma InitCommands(reply: nat -> Reply, step: nat -> Pass, k: nat)
    ensures var r := InitBy(reply, step, k);
      && (reply(k + WAKE_BYTES).r1 != R1_IDLE_STATE ==>
        !r.ok && r.tries == 0 && r.cmds == [Command(CMD0, 0)])
      && (reply(k + WAKE_BYTES).r1 == R1_IDLE_STATE ==>
        && 1 <= r.tries <= ACMD41_ATTEMPTS
        && (r.cmds == InitHead(r.tries) || r.cmds == InitHead(r.tries) + [Command(CMD16, BLOCK_LEN_ARG)])
        && (r.tries < ACMD41_ATTEMPTS ==> r.cmds == InitHead(r.tries) + [Command(CMD16, BLOCK_LEN_ARG)]))
      && (r.ok ==> r.tries >= 1 && r.cmds == InitHead(r.tries) + [Command(CMD16, BLOCK_LEN_ARG)])
  {
  }

  /**
   * With no card on the bus (every reply 0xFF) initialization fails after
   * the wake-up bytes, one CMD0 frame and ten unanswered polls.
   */
  lemma NoCardInit(rx: Stream, k: nat)
    requires forall m :: At(rx, m) == FILL
    ensures InitRun(rx, k) == Startup(false, 0, [Command(CMD0, 0)], Fills(WAKE_BYTES) + Frame(CMD0, 0) + Fills(RESPONSE_POLLS))
  {
    CommandResponse(rx, k + WAKE_BYTES);
  }

  // ---------------------------------------------------------------------
  // Reading (sd_read_sectors)
  // ---------------------------------------------------------------------

  /**
   * One iteration of the read loop: after its six-byte CMD17 frame the host
   * clocks out only 0xFF, `fills` bytes in all; the iteration failed, or it
   * read the 512 data bytes that start at exchange `start`.
   */
  datatype BlockRead = Failed(fills: nat) | Read(fills: nat, start: nat)

  /**
   * The data phase of a block read, from exchange `kt` on: the wait for the
   * start token (at most 1000 polls), then 512 data bytes and two CRC bytes.
   */
  function ReadData(rx: Stream, kt: nat): (b: BlockRead)
    ensures b.Read? ==> b.start + BLOCK_SIZE + 2 == kt + b.fills
  {
    var n := Polls(rx, kt, TOKEN_POLLS, Token);
    if Last(rx, kt, TOKEN_POLLS, Token) != DATA_TOKEN then Failed(n)
    else Read(n + BLOCK_SIZE + 2, kt + n)
  }

  /**
   * One iteration of the read loop with its CMD17 frame starting at exchange
   * `k`: the command, then, once it was answered with 0, the data phase.
   */
  function ReadBlock(rx: Stream, k: nat): (b: BlockRead)
    ensures b.Read? ==> b.start + BLOCK_SIZE + 2 == k + 6 + b.fills
  {
    var c := CommandReply(rx, k);
    if c.r1 != 0 then Failed(c.polls)
    else
      var d := ReadData(rx, k + Len(c));
      d.(fills := c.polls + d.fills)
  }

  /**
   * A block is read exactly when CMD17 answers 0 and a 0xFE token arrives
   * within the 1000 polls that follow the command.
   */
  lemma ReadBlockSucceeds(rx: Stream, k: nat)
    ensures var c := CommandReply(rx, k);
      ReadBlock(rx, k).Read? <==> c.r1 == 0 && Arrives(rx, k + Len(c), TOKEN_POLLS, Token)
  {
    var c := CommandReply(rx, k);
    PollsFindFirst(rx, k + Len(c), TOKEN_POLLS, Token);
  }

  /**
   * The data of a block read are the 512 replies right after the first
   * 0xFE token, and the read ends two CRC bytes after them.
   */
  lemma ReadBlockData(rx: Stream, k: nat)
    requires ReadBlock(rx, k).Read?
    ensures var b := ReadBlock(rx, k);
      var c := CommandReply(rx, k);
      var kt := k + Len(c);
      var t := kt + Polls(rx, kt, TOKEN_POLLS, Token) - 1;
      && At(rx, t) == DATA_TOKEN
      && (forall m :: kt <= m < t ==> At(rx, m) != DATA_TOKEN)
      && b.start == t + 1
      && k + 6 + b.fills == t + 1 + BLOCK_SIZE + 2
  {
    var c := CommandReply(rx, k);
    var kt := k + Len(c);
    var n := Polls(rx, kt, TOKEN_POLLS, Token);
    PollsSkip(rx, kt, TOKEN_POLLS, Token);
    forall m | kt <= m < kt + n - 1
      ensures At(rx, m) != DATA_TOKEN
    {
      assert !Ends(Token, At(rx, m));
    }
  }

  /** The bytes one read iteration clocks out: the CMD17 frame for sector `lba`, then only 0xFF. */
  function ReadTx(lba: U32, b: BlockRead): (tx: seq<Byte>)
    ensures |tx| == 6 + b.fills
  {
    Frame(CMD17, lba) + Fills(b.fills)
  }

  /**
   * What a multi-sector transfer did: success, the data it read, the bytes
   * it clocked out, and the blocks it attempted.
   */
  datatype Transfer = Transfer(ok: bool, data: seq<Byte>, tx: seq<Byte>, blocks: nat)

  /**
   * Blocks `from` up to `count` of a transfer of sectors from `sector` on,
   * read one after another by `step`, the first from exchange `k` on, and
   * stopping at the first that fails: block `j` goes to sector `sector + j`
   * (modulo 2^32). It attempts between one and `count - from` blocks (none
   * when there are none to read), all of them when it succeeds, and delivers
   * 512 bytes for every block before the failing one.
   */
  function ReadBlocksBy(rx: Stream, step: nat -> BlockRead, sector: U32, k: nat, from: nat, count: nat): (r: Transfer)
    requires from <= count <= TWO_32
    ensures r.blocks <= count - from
    ensures r.ok ==> r.blocks == count - from
    ensures !r.ok ==> r.blocks >= 1
    ensures |r.data| == BLOCK_SIZE * (if r.ok then r.blocks else r.blocks - 1)
    decreases count - from, k
  {
    if from == count then Transfer(true, [], [], 0)
    else
      var b := step(k);
      var tx := ReadTx(SectorAt(sector, from), b);
      match b
      case Failed(_) => Transfer(false, [], tx, 1)
      case Read(_, start) =>
        var rest := ReadBlocksBy(rx, step, sector, k + |tx|, from + 1, count);
        Transfer(rest.ok, Replies(rx, start, BLOCK_SIZE) + rest.data, tx + rest.tx, rest.blocks + 1)
  }

  /**
   * The loop of `sd_read_sectors`: `count` sectors from `sector` on, read
   * with ReadBlock, the first command at exchange `k`.
   */
  function ReadBlocks(rx: Stream, sector: U32, k: nat, count: nat): (r: Transfer)
    requires count <= TWO_32
  {
    ReadBlocksBy(rx, (s: nat) => ReadBlock(rx, s), sector, k, 0, count)
  }

  /** `step` reads a block as ReadBlock does, wherever it starts. */
  ghost predicate IsBlockReader(rx: Stream, step: nat -> BlockRead)
  {
    forall s {:trigger ReadBlock(rx, s)} :: step(s) == ReadBlock(rx, s)
  }

  /**
   * The read loop, with blocks `from` up to `count` to go, its next command
   * at exchange `kc`, and having read `got` and clocked out `sent` so far,
   * ends as `full` does.
   */
  ghost predicate ReadResumes(full: Transfer, rx: Stream, step: nat -> BlockRead, sector: U32, kc: nat, from: nat, count: nat, got: seq<Byte>, sent: seq<Byte>)
  {
    from <= count <= TWO_32 && full == After(from, got, sent, ReadBlocksBy(rx, step, sector, kc, from, count))
  }

  /** A transfer that, after `done` blocks that read `got` and clocked out `sent`, goes on as `rest`. */
  function After(done: nat, got: seq<Byte>, sent: seq<Byte>, rest: Transfer): (t: Transfer)
    ensures t.ok == rest.ok && t.data == got + rest.data
    ensures t.tx == sent + rest.tx && t.blocks == done + rest.blocks
  {
    Transfer(rest.ok, got + rest.data, sent + rest.tx, done + rest.blocks)
  }

  /** One more block of the read loop: the loop stops on it exactly when it fails. */
  lemma {:induction false} ReadNext(full: Transfer, rx: Stream, step: nat -> BlockRead, sector: U32, kc: nat, from: nat, count: nat, got: seq<Byte>, sent: seq<Byte>)
    requires from < count && ReadResumes(full, rx, step, sector, kc, from, count, got, sent)
    ensures var b := step(kc);
      var tx := ReadTx(SectorAt(sector, from), b);
      && (b.Failed? ==> full == Transfer(false, got, sent + tx, from + 1))
      && (b.Read? ==> ReadResumes(full, rx, step, sector, kc + |tx|, from + 1, count, got + Replies(rx, b.start, BLOCK_SIZE), sent + tx))
  {
    var b := step(kc);
    var tx := ReadTx(SectorAt(sector, from), b);
    if b.Read? {
      var rest := ReadBlocksBy(rx, step, sector, kc + |tx|, from + 1, count);
      assert got + (Replies(rx, b.start, BLOCK_SIZE) + rest.data) == got + Replies(rx, b.start, BLOCK_SIZE) + rest.data;
      assert sent + (tx + rest.tx) == sent + tx + rest.tx;
    } else {
      assert sent + (tx + []) == sent + tx;
    }
  }

  /** With no block left, the read loop has done all it was asked to. */
  lemma {:induction false} ReadEnd(full: Transfer, rx: Stream, step: nat -> BlockRead, sector: U32, kc: nat, count: nat, got: seq<Byte>, sent: seq<Byte>)
    requires ReadResumes(full, rx, step, sector, kc, count, count, got, sent)
    ensures full == Transfer(true, got, sent, count)
  {
    assert got + [] == got;
    assert sent + [] == sent;
  }

  /** `sector + j` in `uint32_t` arithmetic: the sum, wrapped once past 2^32 - 1. */
  function SectorAt(sector: U32, j: nat): (lba: U32)
    requires j < TWO_32
  {
    if sector + j < TWO_32 then sector + j else sector + j - TWO_32
  }

  /** SectorAt is addition modulo 2^32. */
  lemma SectorAtWraps(sector: U32, j: nat)
    requires j < TWO_32
    ensures SectorAt(sector, j) == (sector + j) % TWO_32
  {
  }

  // ---------------------------------------------------------------------
  // Writing (sd_write_sectors)
  // ---------------------------------------------------------------------

  /** `(data_response & 0x1F) == 0x05`: the card accepted the data block. */
  predicate DataAccepted(d: Byte)
  {
    d % 0x20 == 0x05
  }

  /** How far one iteration of the write loop got. */
  datatype BlockWrite =
    | Refused(c: Reply)                  // CMD24 not answered with 0
    | Rejected(c: Reply)                 // data response other than xxx00101
    | Waited(c: Reply, busy: nat)        // accepted; `busy` polls of the busy wait

  /** Exchanges of one write iteration: command, token, 512 bytes, two CRC bytes, data response, busy polls. */
  function WriteLen(w: BlockWrite): nat
  {
    match w
    case Refused(c) => Len(c)
    case Rejected(c) => Len(c) + 1 + BLOCK_SIZE + 3
    case Waited(c, busy) => Len(c) + 1 + BLOCK_SIZE + 3 + busy
  }

  /**
   * The write loop reports success only when the busy wait ended with its
   * counter above 0, that is, when a non-zero byte arrived before the
   * 1000th poll.
   */
  predicate WriteOk(w: BlockWrite)
  {
    w.Waited? && BUSY_POLLS - w.busy != 0
  }

  /** One iteration of the write loop with its CMD24 frame starting at exchange `k`. */
  function WriteBlock(rx: Stream, k: nat): (w: BlockWrite)
    ensures w.c == CommandReply(rx, k)
    ensures w.Waited? ==> 1 <= w.busy <= BUSY_POLLS
  {
    var c := CommandReply(rx, k);
    if c.r1 != 0 then Refused(c)
    else
      var kd := k + Len(c) + 1 + BLOCK_SIZE + 2;
      if !DataAccepted(At(rx, kd)) then Rejected(c)
      else Waited(c, Polls(rx, kd + 1, BUSY_POLLS, Release))
  }

  /**
   * A block write fails without a busy wait when CMD24 is refused or the
   * data response's low five bits are not 00101; an accepted block is
   * reported written exactly when a non-zero byte arrives within the first
   * 999 busy polls (not 1000: see LateReleaseFails).
   */
  lemma WriteBlockOutcome(rx: Stream, k: nat)
    ensures var w := WriteBlock(rx, k);
      var c := CommandReply(rx, k);
      var kd := k + Len(c) + 1 + BLOCK_SIZE + 2;
      && (w.Refused? <==> c.r1 != 0)
      && (w.Rejected? <==> c.r1 == 0 && !DataAccepted(At(rx, kd)))
      && (w.Waited? ==> (WriteOk(w) <==> Arrives(rx, kd + 1, BUSY_POLLS - 1, Release)))
  {
    var w := WriteBlock(rx, k);
    var c := CommandReply(rx, k);
    var kd := k + Len(c) + 1 + BLOCK_SIZE + 2;
    if w.Waited? {
      var n := Polls(rx, kd + 1, BUSY_POLLS, Release);
      PollsSkip(rx, kd + 1, BUSY_POLLS, Release);
      assert w.busy == n;
      if Arrives(rx, kd + 1, BUSY_POLLS - 1, Release) {
        var t :| kd + 1 <= t < kd + BUSY_POLLS && Ends(Release, At(rx, t));
        assert n - 1 <= t - (kd + 1);
      }
      if n < BUSY_POLLS {
        assert Ends(Release, At(rx, kd + n));
      }
    }
  }

  /**
   * The busy wait gives up one poll early: a card that signals completion on
   * the 1000th poll still has its write reported as failed.
   */
  lemma LateReleaseFails(rx: Stream, k: nat)
    requires var c := CommandReply(rx, k);
      var kd := k + Len(c) + 1 + BLOCK_SIZE + 2;
      && c.r1 == 0
      && DataAccepted(At(rx, kd))
      && (forall m :: kd + 1 <= m < kd + BUSY_POLLS ==> At(rx, m) == 0)
      && At(rx, kd + BUSY_POLLS) != 0
    ensures !WriteOk(WriteBlock(rx, k))
  {
    WriteBlockOutcome(rx, k);
  }

  /** The data packet of a block write: the start token, the block, two dummy CRC bytes. */
  function BlockTx(block: seq<Byte>): (tx: seq<Byte>)
    ensures |tx| == |block| + 3
  {
    [DATA_TOKEN] + block + Fills(2)
  }

  /** The bytes one write iteration clocks out: the command, then the data packet and only 0xFF once CMD24 was answered with 0. */
  function WriteTx(lba: U32, block: seq<Byte>, w: BlockWrite): (tx: seq<Byte>)
    requires |block| == BLOCK_SIZE
    ensures |tx| == WriteLen(w)
  {
    var cmd := CommandTx(CMD24, lba, w.c);
    match w
    case Refused(_) => cmd
    case Rejected(_) => cmd + BlockTx(block) + [FILL]
    case Waited(_, busy) => cmd + BlockTx(block) + [FILL] + Fills(busy)
  }

  /** The busy polls after the data response on exchange `kr`: none when the card did not accept the block. */
  function BusyPolls(rx: Stream, kr: nat): (n: nat)
    ensures DataAccepted(At(rx, kr)) ==> 1 <= n <= BUSY_POLLS
  {
    if DataAccepted(At(rx, kr)) then Polls(rx, kr + 1, BUSY_POLLS, Release) else 0
  }

  /**
   * Whenever CMD24 was answered, the block goes out verbatim right after the
   * 0xFE start token that follows the command's response.
   */
  lemma WriteSendsBlock(lba: U32, block: seq<Byte>, w: BlockWrite)
    requires |block| == BLOCK_SIZE
    requires !w.Refused?
    ensures var tx := WriteTx(lba, block, w);
      var p := Len(w.c);
      && tx[..p] == CommandTx(CMD24, lba, w.c)
      && tx[p] == DATA_TOKEN
      && tx[p + 1 .. p + 1 + BLOCK_SIZE] == block
      && (forall j :: p + 1 + BLOCK_SIZE <= j < |tx| ==> tx[j] == FILL)
  {
    var tx := WriteTx(lba, block, w);
    var p := Len(w.c);
    var cmd := CommandTx(CMD24, lba, w.c);
    var tail := Fills(if w.Rejected? then 3 else 3 + w.busy);
    var rest := [DATA_TOKEN] + block + tail;
    assert tx == cmd + rest by {
      if w.Rejected? {
        assert Fills(2) + [FILL] == tail;
      } else {
        FillsAppend(3, w.busy);
        assert Fills(2) + [FILL] + Fills(w.busy) == tail;
      }
    }
    assert tx[p..] == rest;
    assert rest[1..1 + BLOCK_SIZE] == block;
    assert rest[1 + BLOCK_SIZE..] == tail;
  }

  /** Block `j` of `data`. */
  function BlockOf(data: seq<Byte>, j: nat): (block: seq<Byte>)
    requires BLOCK_SIZE * (j + 1) <= |data|
    ensures |block| == BLOCK_SIZE
  {
    data[BLOCK_SIZE * j .. BLOCK_SIZE * j + BLOCK_SIZE]
  }

  /**
   * Blocks `from` up to `count` of `data` written one after another by
   * `step`, the first from exchange `k` on, block `j` to sector
   * `sector + j` (modulo 2^32), stopping at the first that fails. It
   * attempts between one and `count - from` blocks (none when there are none
   * to write), all of them when it succeeds, and reads no data.
   */
  function WriteBlocksBy(step: nat -> BlockWrite, sector: U32, data: seq<Byte>, k: nat, from: nat, count: nat): (r: Transfer)
    requires from <= count <= TWO_32 && BLOCK_SIZE * count <= |data|
    ensures r.data == []
    ensures r.blocks <= count - from
    ensures r.ok ==> r.blocks == count - from
    ensures !r.ok ==> r.blocks >= 1
    decreases count - from, k
  {
    if from == count then Transfer(true, [], [], 0)
    else
      var w := step(k);
      var tx := WriteTx(SectorAt(sector, from), BlockOf(data, from), w);
      if !WriteOk(w) then Transfer(false, [], tx, 1)
      else
        var rest := WriteBlocksBy(step, sector, data, k + WriteLen(w), from + 1, count);
        Transfer(rest.ok, [], tx + rest.tx, rest.blocks + 1)
  }

  /**
   * The loop of `sd_write_sectors`: the first `count` blocks of `data` to
   * sectors `sector` on, written with WriteBlock, the first command at
   * exchange `k`.
   */
  function WriteBlocks(rx: Stream, sector: U32, data: seq<Byte>, k: nat, count: nat): (r: Transfer)
    requires count <= TWO_32 && BLOCK_SIZE * count <= |data|
  {
    WriteBlocksBy((s: nat) => WriteBlock(rx, s), sector, data, k, 0, count)
  }

  /** `step` writes a block as WriteBlock does, wherever it starts. */
  ghost predicate IsBlockWriter(rx: Stream, step: nat -> BlockWrite)
  {
    forall s {:trigger WriteBlock(rx, s)} :: step(s) == WriteBlock(rx, s)
  }

  /**
   * The write loop, with blocks `from` up to `count` to go, its next command
   * at exchange `kc`, and having clocked out `sent` so far, ends as `full`
   * does.
   */
  ghost predicate WriteResumes(full: Transfer, step: nat -> BlockWrite, sector: U32, data: seq<Byte>, kc: nat, from: nat, count: nat, sent: seq<Byte>)
  {
    && from <= count <= TWO_32 && BLOCK_SIZE * count <= |data|
    && full == After(from, [], sent, WriteBlocksBy(step, sector, data, kc, from, count))
  }

  /** One more block of the write loop: the loop stops on it exactly when it fails. */
  lemma {:induction false} WriteNext(full: Transfer, step: nat -> BlockWrite, sector: U32, data: seq<Byte>, kc: nat, from: nat, count: nat, sent: seq<Byte>)
    requires from < count && WriteResumes(full, step, sector, data, kc, from, count, sent)
    ensures var w := step(kc);
      var tx := WriteTx(SectorAt(sector, from), BlockOf(data, from), w);
      && (!WriteOk(w) ==> full == Transfer(false, [], sent + tx, from + 1))
      && (WriteOk(w) ==> WriteResumes(full, step, sector, data, kc + WriteLen(w), from + 1, count, sent + tx))
  {
    if WriteOk(step(kc)) {
      WriteGoesOn(full, step, sector, data, kc, from, count, sent);
    } else {
      WriteStops(full, step, sector, data, kc, from, count, sent);
    }
  }

  /** A block that fails ends the write loop. */
  lemma {:induction false} WriteStops(full: Transfer, step: nat -> BlockWrite, sector: U32, data: seq<Byte>, kc: nat, from: nat, count: nat, sent: seq<Byte>)
    requires from < count && WriteResumes(full, step, sector, data, kc, from, count, sent)
    requires !WriteOk(step(kc))
    ensures full == Transfer(false, [], sent + WriteTx(SectorAt(sector, from), BlockOf(data, from), step(kc)), from + 1)
  {
    var tx := WriteTx(SectorAt(sector, from), BlockOf(data, from), step(kc));
    assert WriteBlocksBy(step, sector, data, kc, from, count) == Transfer(false, [], tx, 1);
    assert sent + (tx + []) == sent + tx;
  }

  /** A block that is written is followed by the rest of the write loop, from the next exchange and block on. */
  lemma {:induction false} WriteBlocksByGoesOn(step: nat -> BlockWrite, sector: U32, data: seq<Byte>, kc: nat, from: nat, count: nat)
    requires from < count <= TWO_32 && BLOCK_SIZE * count <= |data|
    requires WriteOk(step(kc))
    ensures var w := step(kc);
      var rest := WriteBlocksBy(step, sector, data, kc + WriteLen(w), from + 1, count);
      WriteBlocksBy(step, sector, data, kc, from, count)
        == Transfer(rest.ok, [], WriteTx(SectorAt(sector, from), BlockOf(data, from), w) + rest.tx, rest.blocks + 1)
  {
  }

  /** A transfer that did `done` blocks and then one more that clocked out `tx`, before going on as `rest`, did `done + 1` blocks before `rest`. */
  lemma AfterOneMore(done: nat, sent: seq<Byte>, tx: seq<Byte>, rest: Transfer)
    requires rest.data == []
    ensures After(done, [], sent, Transfer(rest.ok, [], tx + rest.tx, rest.blocks + 1)) == After(done + 1, [], sent + tx, rest)
  {
    assert sent + (tx + rest.tx) == sent + tx + rest.tx;
  }

  /** A block that is written lets the write loop go on with the next one. */
  lemma {:induction false} WriteGoesOn(full: Transfer, step: nat -> BlockWrite, sector: U32, data: seq<Byte>, kc: nat, from: nat, count: nat, sent: seq<Byte>)
    requires from < count && WriteResumes(full, step, sector, data, kc, from, count, sent)
    requires WriteOk(step(kc))
    ensures WriteResumes(full, step, sector, data, kc + WriteLen(step(kc)), from + 1, count,
                         sent + WriteTx(SectorAt(sector, from), BlockOf(data, from), step(kc)))
  {
    var w := step(kc);
    var tx := WriteTx(SectorAt(sector, from), BlockOf(data, from), w);
    var rest := WriteBlocksBy(step, sector, data, kc + WriteLen(w), from + 1, count);
    WriteBlocksByGoesOn(step, sector, data, kc, from, count);
    AfterOneMore(from, sent, tx, rest);
    assert full == After(from + 1, [], sent + tx, rest);
  }

  /** With no block left, the write loop has done all it was asked to. */
  lemma {:induction false} WriteEnd(full: Transfer, step: nat -> BlockWrite, sector: U32, data: seq<Byte>, kc: nat, count: nat, sent: seq<Byte>)
    requires WriteResumes(full, step, sector, data, kc, count, count, sent)
    ensures full == Transfer(true, [], sent, count)
  {
    assert sent + [] == sent;
  }
}
