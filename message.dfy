/** The broadcast message (showcontrol4j-core SCFJMessage.java): an optional
    instruction and an absolute start time in epoch milliseconds, with its
    builder and its byte codec.

    The original serializes with Jackson, whose code is not part of this
    model. In its place this module defines a minimal two-field JSON text,
    `{"instruction":"GO","startTime":1234}`, written in US-ASCII bytes, and a
    decoder that accepts exactly the texts the encoder writes. */
module Messages {
  import opened Wrappers
  import opened JsonText
  import opened Instructions

  const LONG_MIN: int := -0x8000_0000_0000_0000
  const LONG_MAX: int := 0x7FFF_FFFF_FFFF_FFFF

  /** Java's 64-bit `long`. */
  type Long = x: int | LONG_MIN <= x <= LONG_MAX

  /** An SCFJMessage. The instruction reference may be null. */
  datatype Message = Message(instruction: Option<Instruction>, startTime: Long)

  /** The Lombok builder: fields not set keep their defaults, a null
      instruction and a start time of 0. */
  datatype Builder = Builder(instruction: Option<Instruction>, startTime: Long) {

    function WithInstruction(i: Option<Instruction>): Builder {
      this.(instruction := i)
    }

    function WithStartTime(t: Long): Builder {
      this.(startTime := t)
    }

    function Build(): Message {
      Message(instruction, startTime)
    }
  }

  /** `SCFJMessage.builder()` */
  function NewBuilder(): Builder {
    Builder(None, 0)
  }

  /** The builder stores exactly the instruction and start time it is given. */
  lemma BuilderStoresFields(i: Option<Instruction>, t: Long)
    ensures NewBuilder().WithInstruction(i).WithStartTime(t).Build() == Message(i, t)
    ensures NewBuilder().WithStartTime(t).WithInstruction(i).Build() == Message(i, t)
  {
  }

  /** A message built with nothing set has no instruction and start time 0. */
  lemma BuilderDefaults()
    ensures NewBuilder().Build().instruction == None
    ensures NewBuilder().Build().startTime == 0
  {
  }

  /** Equality of messages is field-wise, as the generated `equals` is. */
  lemma MessageEquality(a: Message, b: Message)
    ensures a == b <==> a.instruction == b.instruction && a.startTime == b.startTime
  {
  }

  /** Why `deserialize` throws an IOException. */
  datatype DecodeError =
    | MalformedMessage     // the bytes are not a message's text
    | StartTimeOutOfRange  // the start time does not fit in a long

  const OPEN: string := "{\"instruction\":"
  const SEPARATOR: string := ",\"startTime\":"
  const CLOSE: string := "}"

  /** How the instruction field's value is written: a quoted name, or null. */
  function InstructionToken(i: Option<Instruction>): string {
    match i
    case None => "null"
    case Some(k) => "\"" + Name(k) + "\""
  }

  lemma TokenAscii(i: Option<Instruction>)
    ensures IsAscii(InstructionToken(i))
  {
  }

  /** Reads an instruction field value from the front of `s`, and how many
      characters it spans. */
  function ParseInstructionToken(s: string): (r: Option<(Option<Instruction>, nat)>)
    ensures r.Some? ==> r.value.1 == |InstructionToken(r.value.0)| <= |s|
    ensures r.Some? ==> s[..r.value.1] == InstructionToken(r.value.0)
  {
    if InstructionToken(None) <= s then Some((None, 4))
    else if InstructionToken(Some(GO)) <= s then Some((Some(GO), 4))
    else if InstructionToken(Some(IDLE)) <= s then Some((Some(IDLE), 6))
    else if InstructionToken(Some(SHUTDOWN)) <= s then Some((Some(SHUTDOWN), 10))
    else None
  }

  lemma ParseTokenFront(i: Option<Instruction>, tail: string)
    ensures ParseInstructionToken(InstructionToken(i) + tail) == Some((i, |InstructionToken(i)|))
  {
    var s := InstructionToken(i) + tail;
    assert s[..|InstructionToken(i)|] == InstructionToken(i);
    if i.Some? {
      assert s[0] == '"';
      assert s[1] == Name(i.value)[0];
      if i.value == SHUTDOWN {
        assert s[..6] != InstructionToken(Some(IDLE)) by { assert s[1] == 'S'; }
      }
    }
  }

  /** The text after the instruction field's value: the start time field
      and the closing brace. */
  function StartTimeText(t: int): string {
    SEPARATOR + IntText(t) + CLOSE
  }

  /** The text after the first field's name. */
  function FieldsText(m: Message): string {
    InstructionToken(m.instruction) + StartTimeText(m.startTime)
  }

  /** The JSON text of a message: `{"instruction":"GO","startTime":1234}`,
      with `null` for a missing instruction. */
  function Json(m: Message): string {
    OPEN + FieldsText(m)
  }

  lemma JsonAscii(m: Message)
    ensures IsAscii(Json(m))
  {
    var num := IntText(m.startTime);
    assert IsAscii(StartTimeText(m.startTime)) by {
      IntTextAscii(m.startTime);
    }
    assert IsAscii(FieldsText(m)) by {
      TokenAscii(m.instruction);
    }
  }

  /** Reads the JSON text of a message. */
  function ParseJson(s: string): Result<Message, DecodeError> {
    if OPEN <= s then ParseFields(s[|OPEN|..]) else Failure(MalformedMessage)
  }

  /** Reads what follows the opening brace and the first field's name. */
  function ParseFields(s: string): Result<Message, DecodeError> {
    match ParseInstructionToken(s)
    case None => Failure(MalformedMessage)
    case Some((instruction, n)) => ParseStartTime(instruction, s[n..])
  }

  /** Reads the second field and the closing brace. */
  function ParseStartTime(instruction: Option<Instruction>, s: string): Result<Message, DecodeError> {
    if SEPARATOR <= s && |s| > |SEPARATOR| && s[|s| - 1] == '}' then
      match ParseInt(s[|SEPARATOR|..|s| - 1])
      case None => Failure(MalformedMessage)
      case Some(t) =>
        if LONG_MIN <= t <= LONG_MAX then Success(Message(instruction, t))
        else Failure(StartTimeOutOfRange)
    else Failure(MalformedMessage)
  }

  /** `serialize()` */
  function Serialize(m: Message): seq<Byte> {
    ToBytes(Json(m))
  }

  /** `deserialize(bytes)`: a message, or the IOException Jackson would throw. */
  function Deserialize(bs: seq<Byte>): Result<Message, DecodeError> {
    if AllAscii(bs) then ParseJson(ToChars(bs)) else Failure(MalformedMessage)
  }

  lemma ParseStartTimeText(i: Option<Instruction>, t: Long)
    ensures ParseStartTime(i, StartTimeText(t)) == Success(Message(i, t))
  {
    var num := IntText(t);
    var tail := StartTimeText(t);
    assert tail[..|SEPARATOR|] == SEPARATOR;
    assert tail[|SEPARATOR|..|tail| - 1] == num;
    ParseIntText(t);
  }

  lemma ParseFieldsText(m: Message)
    ensures ParseFields(FieldsText(m)) == Success(m)
  {
    var tok := InstructionToken(m.instruction);
    var tail := StartTimeText(m.startTime);
    ParseTokenFront(m.instruction, tail);
    assert (tok + tail)[|tok|..] == tail;
    ParseStartTimeText(m.instruction, m.startTime);
  }

  lemma ParseJsonText(m: Message)
    ensures ParseJson(Json(m)) == Success(m)
  {
    var rest := FieldsText(m);
    assert (OPEN + rest)[..|OPEN|] == OPEN;
    assert (OPEN + rest)[|OPEN|..] == rest;
    ParseFieldsText(m);
  }

  /** Round trip: deserializing a serialized message gives back both of its
      fields. */
  lemma DeserializeSerialize(m: Message)
    ensures Deserialize(Serialize(m)) == Success(m)
  {
    JsonAscii(m);
    CharsOfBytes(Json(m));
    ParseJsonText(m);
  }

  lemma ParseStartTimeInverse(i: Option<Instruction>, s: string, m: Message)
    requires ParseStartTime(i, s) == Success(m)
    ensures m.instruction == i && s == StartTimeText(m.startTime)
  {
    var num := s[|SEPARATOR|..|s| - 1];
    IntTextOfParse(num, m.startTime);
    assert s == s[..|SEPARATOR|] + num + [s[|s| - 1]];
  }

  lemma ParseFieldsInverse(s: string, m: Message)
    requires ParseFields(s) == Success(m)
    ensures s == FieldsText(m)
  {
    var r := ParseInstructionToken(s);
    var n := r.value.1;
    assert ParseStartTime(r.value.0, s[n..]) == Success(m);
    ParseStartTimeInverse(r.value.0, s[n..], m);
    assert s == s[..n] + s[n..];
  }

  /** The text reader accepts nothing but the texts `Json` writes. */
  lemma ParseJsonInverse(s: string, m: Message)
    requires ParseJson(s) == Success(m)
    ensures Json(m) == s
  {
    assert ParseFields(s[|OPEN|..]) == Success(m);
    ParseFieldsInverse(s[|OPEN|..], m);
    assert s == s[..|OPEN|] + s[|OPEN|..];
  }

  /** The decoder accepts nothing but encodings: bytes it reads as a message
      are exactly that message's serialization, so it never fills in a default
      for a missing or unreadable field. */
  lemma SerializeDeserialize(bs: seq<Byte>, m: Message)
    requires Deserialize(bs) == Success(m)
    ensures Serialize(m) == bs
  {
    assert AllAscii(bs);
    ParseJsonInverse(ToChars(bs), m);
    BytesOfChars(bs);
  }

  /** Malformed payloads are reported, not read: an empty payload is rejected. */
  lemma EmptyPayloadRejected()
    ensures Deserialize([]).Failure?
  {
    assert !(OPEN <= "");
  }

  /** A payload without its instruction field is rejected. */
  lemma MissingInstructionRejected()
    ensures ParseJson("{\"startTime\":5}").Failure?
  {
    var s := "{\"startTime\":5}";
    assert s[2] != OPEN[2];
  }

  /** A payload naming an instruction that does not exist is rejected. */
  lemma UnknownInstructionRejected()
    ensures ParseJson(OPEN + "\"STOP\"" + StartTimeText(5)).Failure?
  {
    var s := OPEN + "\"STOP\"" + StartTimeText(5);
    assert s[..|OPEN|] == OPEN;
    var rest := s[|OPEN|..];
    assert rest[0] == '"' && rest[1] == 'S' && rest[2] == 'T';
    assert ParseInstructionToken(rest) == None;
  }
}
