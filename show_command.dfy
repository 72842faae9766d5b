/** The command factory (showcontrol4j-core ShowCommand.java): builds the
    message for each instruction, turning a relative sync offset into an
    absolute start time. The wall clock `System.currentTimeMillis()` is the
    parameter `now`. */
module ShowCommands {
  import opened Wrappers
  import opened Instructions
  import opened Messages

  const TWO_TO_64: int := 0x1_0000_0000_0000_0000

  /** Java's `long` addition, which wraps around modulo 2^64. */
  function AddLong(a: Long, b: Long): (r: Long)
    ensures LONG_MIN <= a + b <= LONG_MAX ==> r == a + b
    ensures (a + b - r) % TWO_TO_64 == 0
  {
    var sum := a + b;
    if sum > LONG_MAX then sum - TWO_TO_64
    else if sum < LONG_MIN then sum + TWO_TO_64
    else sum
  }

  /** `syncTimeout != null ? syncTimeout : 0L` */
  function Offset(syncTimeout: Option<Long>): Long {
    syncTimeout.GetOr(0)
  }

  /** `ShowCommand.GO(syncTimeout)` */
  function Go(now: Long, syncTimeout: Option<Long>): Message {
    NewBuilder().WithInstruction(Some(GO)).WithStartTime(AddLong(now, Offset(syncTimeout))).Build()
  }

  /** `ShowCommand.IDLE(syncTimeout)` */
  function Idle(now: Long, syncTimeout: Option<Long>): Message {
    NewBuilder().WithInstruction(Some(IDLE)).WithStartTime(AddLong(now, Offset(syncTimeout))).Build()
  }

  /** `ShowCommand.SHUTDOWN()`: no offset, so the element acts at once. */
  function Shutdown(now: Long): Message {
    NewBuilder().WithInstruction(Some(SHUTDOWN)).WithStartTime(now).Build()
  }

  /** GO and IDLE carry their instruction and start at `now + t`. */
  lemma DeadlineIsNowPlusOffset(now: Long, t: Long)
    requires LONG_MIN <= now + t <= LONG_MAX
    ensures Go(now, Some(t)) == Message(Some(GO), now + t)
    ensures Idle(now, Some(t)) == Message(Some(IDLE), now + t)
  {
  }

  /** With no offset (a null syncTimeout) the start time is `now`: no wait. */
  lemma NoOffsetStartsNow(now: Long)
    ensures Go(now, None) == Message(Some(GO), now)
    ensures Idle(now, None) == Message(Some(IDLE), now)
  {
  }

  /** SHUTDOWN always starts at `now`. */
  lemma ShutdownStartsNow(now: Long)
    ensures Shutdown(now) == Message(Some(SHUTDOWN), now)
  {
  }

  /** A non-negative offset never yields a deadline before the emission time
      (as long as the addition does not overflow). */
  lemma DeadlineNotBeforeEmission(now: Long, t: Long)
    requires 0 <= t && now + t <= LONG_MAX
    ensures Go(now, Some(t)).startTime >= now
    ensures Idle(now, Some(t)).startTime >= now
  {
  }

  /** The start time is absolute: two commands made with the same offset at
      different instants have deadlines exactly as far apart as the instants,
      and a receiver recovers the offset only by knowing `now`. */
  lemma DeadlineIsAbsolute(now1: Long, now2: Long, t: Long)
    requires LONG_MIN <= now1 + t <= LONG_MAX && LONG_MIN <= now2 + t <= LONG_MAX
    ensures Go(now2, Some(t)).startTime - Go(now1, Some(t)).startTime == now2 - now1
    ensures Go(now1, Some(t)).startTime - now1 == t
  {
  }

  /** Java's arithmetic, not the intent, decides an overflowing deadline: an
      offset past the end of the long range wraps to the far past. */
  lemma OffsetOverflowWraps()
    ensures Go(LONG_MAX, Some(1)).startTime == LONG_MIN
  {
  }
}
