/** The instructions a show trigger broadcasts to show elements
    (showcontrol4j-core Instruction.java).

    SHUTDOWN is the one terminal instruction. The enumeration has no STOP,
    yet ShowElement.java line 85 tests `Instruction.STOP`, ShowTrigger.java
    line 71 calls `ShowCommand.STOP()` and KeyboardShowTrigger.java line 50
    calls `sendShutdownMessage()`, which ShowTrigger does not define. This
    model reads every one of those sites as the SHUTDOWN instruction, the
    one the element tests send and expect to reach the shutdown procedure. */
module Instructions {
  import opened Wrappers

  datatype Instruction =
    | GO        // start the show sequence
    | IDLE      // start the idle loop
    | SHUTDOWN  // shut the show element down

  /** The enum constant's name, which is how the instruction travels on the wire. */
  function Name(i: Instruction): string {
    match i
    case GO => "GO"
    case IDLE => "IDLE"
    case SHUTDOWN => "SHUTDOWN"
  }

  /** `Instruction.valueOf`: the constant with exactly this name, if any. */
  function FromName(s: string): (r: Option<Instruction>)
    ensures r.Some? ==> Name(r.value) == s
    ensures r.None? ==> s != "GO" && s != "IDLE" && s != "SHUTDOWN"
  {
    if s == "GO" then Some(GO)
    else if s == "IDLE" then Some(IDLE)
    else if s == "SHUTDOWN" then Some(SHUTDOWN)
    else None
  }

  /** There are exactly three instructions, and they are pairwise distinct. */
  lemma ExactlyThree(i: Instruction)
    ensures i in {GO, IDLE, SHUTDOWN}
    ensures |{GO, IDLE, SHUTDOWN}| == 3
  {
  }

  /** Names identify instructions: reading a name back gives the same constant,
      and distinct constants have distinct names. */
  lemma NameRoundTrip(i: Instruction, j: Instruction)
    ensures FromName(Name(i)) == Some(i)
    ensures Name(i) == Name(j) <==> i == j
  {
  }

  /** No constant is named STOP: the terminal instruction is SHUTDOWN only. */
  lemma NoStopInstruction()
    ensures FromName("STOP") == None
    ensures forall i: Instruction :: Name(i) != "STOP"
  {
  }
}
