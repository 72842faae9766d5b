/** The trigger emitter (showcontrol4j-trigger ShowTrigger.java): each send
    method builds one command, serializes it and publishes it once on the
    trigger's channel. The broker channel is an append-only log of the
    publishes it accepted; `now` is the wall clock at the call, and `fault`
    says whether the broker makes `basicPublish` throw an IOException. */
module Triggers {
  import opened Wrappers
  import opened JsonText
  import opened Instructions
  import opened Messages
  import opened ShowCommands

  /** AMQP message properties (headers). The triggers always pass null. */
  type Properties = map<string, string>

  /** One `basicPublish(exchange, routingKey, props, body)` call. */
  datatype Delivery = Delivery(exchange: string, routingKey: string, properties: Option<Properties>, body: seq<Byte>)

  /** A broker channel: the publishes it has accepted, in order. */
  class Channel {
    var published: seq<Delivery>

    constructor()
      ensures published == []
    {
      published := [];
    }

    /** `basicPublish`: appends the delivery, unless the broker fails. */
    method BasicPublish(exchange: string, routingKey: string, properties: Option<Properties>, body: seq<Byte>, fault: bool)
      returns (ok: bool)
      modifies this
      ensures ok == !fault
      ensures published == old(published) + (if ok then [Delivery(exchange, routingKey, properties, body)] else [])
    {
      ok := !fault;
      if ok {
        published := published + [Delivery(exchange, routingKey, properties, body)];
      }
    }
  }

  /** The command a send method builds. The trigger itself replaces a null
      syncTimeout by 0 before calling the factory; the terminal command takes
      no offset (`sendStopMessage` calls `ShowCommand.STOP()`, read here as
      `ShowCommand.SHUTDOWN()`). */
  function CommandFor(kind: Instruction, now: Long, syncTimeout: Option<Long>): Message {
    match kind
    case GO => Go(now, Some(Offset(syncTimeout)))
    case IDLE => Idle(now, Some(Offset(syncTimeout)))
    case SHUTDOWN => Shutdown(now)
  }

  /** What a send method publishes: the command's bytes, to the exchange's
      name, with routing key "" and null properties. */
  function Publication(exchange: string, kind: Instruction, now: Long, syncTimeout: Option<Long>): Delivery {
    Delivery(exchange, "", None, Serialize(CommandFor(kind, now, syncTimeout)))
  }

  /** A receiver that decodes a publication gets the command's instruction
      and the absolute start time `now + syncTimeout` (`now + 0` for a null
      syncTimeout, and `now` for the terminal command whatever the timeout). */
  lemma ReceiverDecodesCommand(exchange: string, kind: Instruction, now: Long, syncTimeout: Option<Long>)
    requires kind != SHUTDOWN ==> LONG_MIN <= now + Offset(syncTimeout) <= LONG_MAX
    ensures Deserialize(Publication(exchange, kind, now, syncTimeout).body) ==
      Success(Message(Some(kind), if kind == SHUTDOWN then now else now + Offset(syncTimeout)))
    ensures Publication(exchange, kind, now, syncTimeout).exchange == exchange
    ensures Publication(exchange, kind, now, syncTimeout).routingKey == ""
    ensures Publication(exchange, kind, now, syncTimeout).properties == None
  {
    var m := CommandFor(kind, now, syncTimeout);
    assert m == Message(Some(kind), if kind == SHUTDOWN then now else now + Offset(syncTimeout)) by {
      match kind
      case GO => DeadlineIsNowPlusOffset(now, Offset(syncTimeout));
      case IDLE => DeadlineIsNowPlusOffset(now, Offset(syncTimeout));
      case SHUTDOWN => ShutdownStartsNow(now);
    }
    assert Publication(exchange, kind, now, syncTimeout) == Delivery(exchange, "", None, Serialize(m));
    DeserializeSerialize(m);
  }

  /** Passing a null syncTimeout is the same as passing 0, and the terminal
      command does not depend on the syncTimeout at all. */
  lemma SyncTimeoutHandling(kind: Instruction, now: Long, a: Option<Long>, b: Option<Long>)
    ensures CommandFor(kind, now, None) == CommandFor(kind, now, Some(0))
    ensures CommandFor(SHUTDOWN, now, a) == CommandFor(SHUTDOWN, now, b)
  {
  }

  class ShowTrigger {
    const name: string
    const id: int
    /** `messageExchange.getName()` */
    const exchangeName: string
    const syncTimeout: Option<Long>
    var channel: Channel

    /** The channel is the one `registerShowTrigger` opened on the broker. */
    constructor(name: string, id: int, syncTimeout: Option<Long>, exchangeName: string, channel: Channel)
      ensures this.name == name && this.id == id && this.syncTimeout == syncTimeout
      ensures this.exchangeName == exchangeName && this.channel == channel
    {
      this.name := name;
      this.id := id;
      this.syncTimeout := syncTimeout;
      this.exchangeName := exchangeName;
      this.channel := channel;
    }

    /** `setChannel`: later publishes go to the new channel. */
    method SetChannel(c: Channel)
      modifies this`channel
      ensures channel == c
    {
      channel := c;
    }

    /** `sendGoMessage()` */
    method SendGo(now: Long, fault: bool) returns (ok: bool)
      modifies channel
      ensures ok == !fault
      ensures channel.published == old(channel.published) +
        (if ok then [Publication(exchangeName, GO, now, syncTimeout)] else [])
    {
      ok := channel.BasicPublish(exchangeName, "", None, Serialize(Go(now, Some(Offset(syncTimeout)))), fault);
    }

    /** `sendIdleMessage()` */
    method SendIdle(now: Long, fault: bool) returns (ok: bool)
      modifies channel
      ensures ok == !fault
      ensures channel.published == old(channel.published) +
        (if ok then [Publication(exchangeName, IDLE, now, syncTimeout)] else [])
    {
      ok := channel.BasicPublish(exchangeName, "", None, Serialize(Idle(now, Some(Offset(syncTimeout)))), fault);
    }

    /** `sendStopMessage()`, which is also the `sendShutdownMessage()` the
        keyboard trigger calls: publishes the terminal command. */
    method SendStop(now: Long, fault: bool) returns (ok: bool)
      modifies channel
      ensures ok == !fault
      ensures channel.published == old(channel.published) +
        (if ok then [Publication(exchangeName, SHUTDOWN, now, syncTimeout)] else [])
    {
      ok := channel.BasicPublish(exchangeName, "", None, Serialize(Shutdown(now)), fault);
    }
  }

  /** After `setChannel`, a send publishes on the new channel and leaves the
      old one as it was. */
  method SetChannelScenario(now: Long) returns (onFirst: seq<Delivery>, onSecond: seq<Delivery>)
    ensures onFirst == []
    ensures onSecond == [Publication("test", GO, now, Some(5000))]
  {
    var first := new Channel();
    var trigger := new ShowTrigger("Test Trigger Name", 123456, Some(5000), "test", first);
    var second := new Channel();
    trigger.SetChannel(second);
    var ok := trigger.SendGo(now, false);
    onFirst := first.published;
    onSecond := second.published;
  }
}
