/** The keyboard trigger (showcontrol4j-trigger KeyboardShowTrigger.java):
    reads tokens and classifies each, ignoring case: the trigger key sends
    GO, "IDLE" sends IDLE, "SHUTDOWN" sends the terminal command, "EXIT" ends
    the listener, and anything else is skipped. The scanner is a finite
    sequence of key presses, each carrying the clock at which it was read and
    whether its publish fails. */
module KeyboardTriggers {
  import opened Wrappers
  import opened Instructions
  import opened Messages
  import opened Triggers

  /** Upper case of an ASCII letter; every other character is left alone. */
  function UpperAscii(c: char): char {
    if 'a' <= c <= 'z' then (c as int - 32) as char else c
  }

  /** Lower case of an ASCII letter; every other character is left alone. */
  function LowerAscii(c: char): char {
    if 'A' <= c <= 'Z' then (c as int + 32) as char else c
  }

  /** `String.regionMatches(true, ...)` on one pair of characters: equal, or
      equal in upper case, or equal in the lower case of their upper case. */
  predicate CharEqualsIgnoreCase(a: char, b: char) {
    a == b || UpperAscii(a) == UpperAscii(b) || LowerAscii(UpperAscii(a)) == LowerAscii(UpperAscii(b))
  }

  /** `String.equalsIgnoreCase`: the same length, and every pair of
      characters at the same index equal ignoring case. */
  predicate EqualsIgnoreCase(a: string, b: string) {
    |a| == |b| && forall i :: 0 <= i < |a| ==> CharEqualsIgnoreCase(a[i], b[i])
  }

  function ToUpper(s: string): (r: string)
    ensures |r| == |s| && forall i :: 0 <= i < |s| ==> r[i] == UpperAscii(s[i])
  {
    seq(|s|, i requires 0 <= i < |s| => UpperAscii(s[i]))
  }

  /** For ASCII folding, the three tests of a character pair come down to one:
      the upper cases agree. */
  lemma CharEqualsIgnoreCaseUpper(a: char, b: char)
    ensures CharEqualsIgnoreCase(a, b) <==> UpperAscii(a) == UpperAscii(b)
  {
    var ua, ub := UpperAscii(a), UpperAscii(b);
    if LowerAscii(ua) == LowerAscii(ub) {
      assert !('a' <= ua <= 'z') && !('a' <= ub <= 'z');
    }
  }

  /** Two strings are equal ignoring case exactly when their upper-case forms
      are equal. */
  lemma EqualsIgnoreCaseUpper(a: string, b: string)
    ensures EqualsIgnoreCase(a, b) <==> ToUpper(a) == ToUpper(b)
  {
    forall i | 0 <= i < |a| && i < |b|
      ensures CharEqualsIgnoreCase(a[i], b[i]) <==> UpperAscii(a[i]) == UpperAscii(b[i])
    {
      CharEqualsIgnoreCaseUpper(a[i], b[i]);
    }
    if ToUpper(a) == ToUpper(b) {
      assert forall i :: 0 <= i < |a| ==> ToUpper(a)[i] == ToUpper(b)[i];
    }
  }

  /** Ignoring case is an equivalence: reflexive, symmetric and transitive. */
  lemma EqualsIgnoreCaseEquivalence(a: string, b: string, c: string)
    ensures EqualsIgnoreCase(a, a)
    ensures EqualsIgnoreCase(a, b) ==> EqualsIgnoreCase(b, a)
    ensures EqualsIgnoreCase(a, b) && EqualsIgnoreCase(b, c) ==> EqualsIgnoreCase(a, c)
  {
    EqualsIgnoreCaseUpper(a, a);
    EqualsIgnoreCaseUpper(a, b);
    EqualsIgnoreCaseUpper(b, a);
    EqualsIgnoreCaseUpper(b, c);
    EqualsIgnoreCaseUpper(a, c);
  }

  /** What the listener does with one token. */
  datatype Action = PublishGo | PublishIdle | PublishShutdown | ExitListener | Ignore

  /** The if/else chain of `startListener`: the trigger key is tested first. */
  function Classify(token: string, triggerKey: string): Action {
    if EqualsIgnoreCase(token, triggerKey) then PublishGo
    else if EqualsIgnoreCase(token, "IDLE") then PublishIdle
    else if EqualsIgnoreCase(token, "SHUTDOWN") then PublishShutdown
    else if EqualsIgnoreCase(token, "EXIT") then ExitListener
    else Ignore
  }

  /** The trigger key, in any case, sends GO, whatever else it spells. */
  lemma TriggerKeySendsGo(token: string, triggerKey: string)
    requires EqualsIgnoreCase(token, triggerKey)
    ensures Classify(token, triggerKey) == PublishGo
  {
  }

  /** A token that is not the trigger key is classified by the reserved
      words, in any case; any other token is ignored. */
  lemma ReservedWords(token: string, triggerKey: string)
    requires !EqualsIgnoreCase(token, triggerKey)
    ensures Classify(token, triggerKey) == PublishIdle <==> ToUpper(token) == "IDLE"
    ensures Classify(token, triggerKey) == PublishShutdown <==> ToUpper(token) == "SHUTDOWN"
    ensures Classify(token, triggerKey) == ExitListener <==> ToUpper(token) == "EXIT"
    ensures Classify(token, triggerKey) == Ignore <==>
      ToUpper(token) != "IDLE" && ToUpper(token) != "SHUTDOWN" && ToUpper(token) != "EXIT"
  {
    EqualsIgnoreCaseUpper(token, "IDLE");
    EqualsIgnoreCaseUpper(token, "SHUTDOWN");
    EqualsIgnoreCaseUpper(token, "EXIT");
    assert ToUpper("IDLE") == "IDLE";
    assert ToUpper("SHUTDOWN") == "SHUTDOWN";
    assert ToUpper("EXIT") == "EXIT";
  }

  /** A trigger key spelled like a reserved word shadows it: it sends GO. */
  lemma TriggerKeyShadowsReservedWords()
    ensures Classify("IDLE", "idle") == PublishGo
    ensures Classify("Shutdown", "SHUTDOWN") == PublishGo
    ensures Classify("exit", "Exit") == PublishGo
  {
    assert EqualsIgnoreCase("IDLE", "idle") by {
      assert CharEqualsIgnoreCase('I', 'i') && CharEqualsIgnoreCase('D', 'd');
      assert CharEqualsIgnoreCase('L', 'l') && CharEqualsIgnoreCase('E', 'e');
    }
    assert EqualsIgnoreCase("exit", "Exit") by {
      assert CharEqualsIgnoreCase('e', 'E');
    }
  }

  /** One token read by `scanner.next()`: its text, the clock when it was read,
      and whether the broker makes its publish throw. */
  datatype KeyPress = KeyPress(token: string, now: Long, fault: bool)

  /** A command the listener hands to the channel: its instruction and the
      clock at emission. */
  datatype Send = Send(kind: Instruction, now: Long)

  /** The command an action sends, if any. */
  function Command(a: Action): Option<Instruction> {
    match a
    case PublishGo => Some(GO)
    case PublishIdle => Some(IDLE)
    case PublishShutdown => Some(SHUTDOWN)
    case ExitListener => None
    case Ignore => None
  }

  /** What one token publishes: nothing when it is EXIT or ignored, or when
      its publish fails; else exactly one command. */
  function Reaction(triggerKey: string, p: KeyPress): seq<Send> {
    var command := Command(Classify(p.token, triggerKey));
    if p.fault || command.None? then [] else [Send(command.value, p.now)]
  }

  /** Everything the listener publishes for a sequence of tokens: the
      reactions to the tokens before the first EXIT. */
  function Listen(triggerKey: string, ps: seq<KeyPress>): seq<Send>
    decreases |ps|
  {
    if ps == [] then []
    else if Classify(ps[0].token, triggerKey) == ExitListener then []
    else Reaction(triggerKey, ps[0]) + Listen(triggerKey, ps[1..])
  }

  /** `f` applied to every element, in order. */
  function Map<A, B>(f: A -> B, xs: seq<A>): (ys: seq<B>)
    ensures |ys| == |xs| && forall k :: 0 <= k < |xs| ==> ys[k] == f(xs[k])
  {
    seq(|xs|, k requires 0 <= k < |xs| => f(xs[k]))
  }

  lemma MapAppend<A, B>(f: A -> B, xs: seq<A>, ys: seq<A>)
    ensures Map(f, xs + ys) == Map(f, xs) + Map(f, ys)
  {
    assert forall k :: 0 <= k < |xs| ==> (xs + ys)[k] == xs[k];
    assert forall k :: 0 <= k < |ys| ==> (xs + ys)[|xs| + k] == ys[k];
  }

  lemma AppendAssociates<T>(a: seq<T>, b: seq<T>, c: seq<T>)
    ensures a + (b + c) == a + b + c
  {
  }

  /** What the trigger's send method publishes for one command. */
  function Publisher(exchange: string, syncTimeout: Option<Long>): Send -> Delivery {
    (s: Send) => Publication(exchange, s.kind, s.now, syncTimeout)
  }

  /** The deliveries the channel receives for a sequence of commands. */
  function Publications(exchange: string, syncTimeout: Option<Long>, ss: seq<Send>): seq<Delivery> {
    Map(Publisher(exchange, syncTimeout), ss)
  }

  /** The deliveries of a first token that does not end the listener come
      before those of the rest. */
  lemma PublishedReadsOn(exchange: string, syncTimeout: Option<Long>, triggerKey: string, ps: seq<KeyPress>, published: seq<Delivery>)
    requires ps != [] && Classify(ps[0].token, triggerKey) != ExitListener
    ensures published + Publications(exchange, syncTimeout, Listen(triggerKey, ps)) ==
      published + Publications(exchange, syncTimeout, Reaction(triggerKey, ps[0])) + Publications(exchange, syncTimeout, Listen(triggerKey, ps[1..]))
  {
    var f, r, rest := Publisher(exchange, syncTimeout), Reaction(triggerKey, ps[0]), Listen(triggerKey, ps[1..]);
    ListenReadsOn(triggerKey, ps);
    MapAppend(f, r, rest);
    AppendAssociates(published, Map(f, r), Map(f, rest));
  }

  /** How many tokens the listener reads: up to and including the first EXIT. */
  function Consumed(triggerKey: string, ps: seq<KeyPress>): nat
    decreases |ps|
  {
    if ps == [] then 0
    else if Classify(ps[0].token, triggerKey) == ExitListener then 1
    else 1 + Consumed(triggerKey, ps[1..])
  }

  /** Some token ends the listener. */
  predicate Exits(triggerKey: string, ps: seq<KeyPress>)
    decreases |ps|
  {
    ps != [] && (Classify(ps[0].token, triggerKey) == ExitListener || Exits(triggerKey, ps[1..]))
  }

  /** `Exits` holds exactly when some token is an EXIT. */
  lemma {:induction false} ExitsWhenSomeTokenIsExit(triggerKey: string, ps: seq<KeyPress>)
    ensures Exits(triggerKey, ps) <==> exists k :: 0 <= k < |ps| && Classify(ps[k].token, triggerKey) == ExitListener
    decreases |ps|
  {
    if ps != [] {
      ExitsWhenSomeTokenIsExit(triggerKey, ps[1..]);
      if exists k :: 0 <= k < |ps| && Classify(ps[k].token, triggerKey) == ExitListener {
        var k :| 0 <= k < |ps| && Classify(ps[k].token, triggerKey) == ExitListener;
        if k > 0 {
          assert ps[1..][k - 1] == ps[k];
        }
      }
      if Exits(triggerKey, ps[1..]) {
        var k :| 0 <= k < |ps[1..]| && Classify(ps[1..][k].token, triggerKey) == ExitListener;
        assert ps[k + 1] == ps[1..][k];
      }
    }
  }

  /** A first token that does not end the listener adds its reaction and one
      read. */
  lemma ListenReadsOn(triggerKey: string, ps: seq<KeyPress>)
    requires ps != [] && Classify(ps[0].token, triggerKey) != ExitListener
    ensures Listen(triggerKey, ps) == Reaction(triggerKey, ps[0]) + Listen(triggerKey, ps[1..])
    ensures Consumed(triggerKey, ps) == 1 + Consumed(triggerKey, ps[1..])
    ensures Exits(triggerKey, ps) == Exits(triggerKey, ps[1..])
  {
  }

  /** A first token that ends the listener publishes nothing and is the last
      one read. */
  lemma ListenStops(triggerKey: string, ps: seq<KeyPress>)
    requires ps != [] && Classify(ps[0].token, triggerKey) == ExitListener
    ensures Listen(triggerKey, ps) == []
    ensures Consumed(triggerKey, ps) == 1 && Exits(triggerKey, ps)
  {
  }

  /** Each token causes at most one publish. */
  lemma {:induction false} AtMostOnePublishPerToken(triggerKey: string, ps: seq<KeyPress>)
    ensures |Listen(triggerKey, ps)| <= Consumed(triggerKey, ps) <= |ps|
    decreases |ps|
  {
    if ps != [] && Classify(ps[0].token, triggerKey) != ExitListener {
      AtMostOnePublishPerToken(triggerKey, ps[1..]);
    }
  }

  /** Nothing is published after an EXIT, and the listener reads nothing
      after it. */
  lemma {:induction false} NothingAfterExit(triggerKey: string, ps: seq<KeyPress>, k: nat)
    requires k < |ps| && Classify(ps[k].token, triggerKey) == ExitListener
    ensures Listen(triggerKey, ps) == Listen(triggerKey, ps[..k])
    ensures Consumed(triggerKey, ps) <= k + 1
    decreases k
  {
    if k > 0 && Classify(ps[0].token, triggerKey) != ExitListener {
      NothingAfterExit(triggerKey, ps[1..], k - 1);
      assert ps[..k][1..] == ps[1..][..k - 1];
    }
  }

  /** A token whose publish fails, or that is ignored, publishes nothing and
      the listener reads on. */
  lemma SkippedTokenReadsOn(triggerKey: string, p: KeyPress, ps: seq<KeyPress>)
    requires p.fault || Classify(p.token, triggerKey) == Ignore
    requires Classify(p.token, triggerKey) != ExitListener
    ensures Listen(triggerKey, [p] + ps) == Listen(triggerKey, ps)
    ensures Consumed(triggerKey, [p] + ps) == 1 + Consumed(triggerKey, ps)
  {
    assert ([p] + ps)[0] == p;
    assert ([p] + ps)[1..] == ps;
  }

  class KeyboardShowTrigger {
    const triggerKey: string
    /** The ShowTrigger part of the object: its exchange, syncTimeout and channel. */
    const trigger: ShowTrigger

    constructor(triggerKey: string, name: string, id: int, syncTimeout: Option<Long>, exchangeName: string, channel: Channel)
      ensures this.triggerKey == triggerKey && fresh(trigger)
      ensures trigger.name == name && trigger.id == id && trigger.syncTimeout == syncTimeout
      ensures trigger.exchangeName == exchangeName && trigger.channel == channel
    {
      this.triggerKey := triggerKey;
      trigger := new ShowTrigger(name, id, syncTimeout, exchangeName, channel);
    }

    /** The branch of `startListener()` for one token that does not end it. */
    method React(press: KeyPress)
      requires Classify(press.token, triggerKey) != ExitListener
      modifies trigger.channel
      ensures trigger.channel.published ==
        old(trigger.channel.published) + Publications(trigger.exchangeName, trigger.syncTimeout, Reaction(triggerKey, press))
    {
      var ok := true;
      match Classify(press.token, triggerKey)
      case PublishGo =>
        ok := trigger.SendGo(press.now, press.fault);
      case PublishIdle =>
        ok := trigger.SendIdle(press.now, press.fault);
      case PublishShutdown =>
        ok := trigger.SendStop(press.now, press.fault);
      case Ignore =>
    }

    /** `startListener()`: reads tokens until EXIT (where the original calls
        `System.exit(0)`) or until the tokens run out (where `scanner.next()`
        throws NoSuchElementException, which the loop does not catch, so the
        listener ends), and publishes what each token asks for. A failed
        publish is logged and the next token is read. */
    method StartListener(presses: seq<KeyPress>) returns (read: nat, exited: bool)
      modifies trigger.channel
      ensures trigger.channel.published ==
        old(trigger.channel.published) + Publications(trigger.exchangeName, trigger.syncTimeout, Listen(triggerKey, presses))
      ensures read == Consumed(triggerKey, presses)
      ensures exited == Exits(triggerKey, presses)
    {
      var channel := trigger.channel;
      var exchange, timeout := trigger.exchangeName, trigger.syncTimeout;
      read := 0;
      assert presses[read..] == presses;
      while read < |presses|
        invariant 0 <= read <= |presses| && trigger.channel == channel
        invariant old(channel.published) + Publications(exchange, timeout, Listen(triggerKey, presses)) ==
          channel.published + Publications(exchange, timeout, Listen(triggerKey, presses[read..]))
        invariant Consumed(triggerKey, presses) == read + Consumed(triggerKey, presses[read..])
        invariant Exits(triggerKey, presses) == Exits(triggerKey, presses[read..])
      {
        var press := presses[read];
        assert presses[read..][0] == press && presses[read..][1..] == presses[read + 1..];
        if Classify(press.token, triggerKey) == ExitListener {
          ListenStops(triggerKey, presses[read..]);
          read, exited := read + 1, true;   // System.exit(0)
          return;
        }
        ListenReadsOn(triggerKey, presses[read..]);
        PublishedReadsOn(exchange, timeout, triggerKey, presses[read..], channel.published);
        React(press);
        read := read + 1;
      }
      exited := false;
      assert presses[read..] == [];
    }
  }

  /** The same token read at each of the given clocks, no publish failing:
      what a scanner that returns `token` on every call yields. */
  function SamePresses(token: string, times: seq<Long>): (ps: seq<KeyPress>)
    ensures |ps| == |times| && forall i :: 0 <= i < |times| ==> ps[i] == KeyPress(token, times[i], false)
  {
    seq(|times|, i requires 0 <= i < |times| => KeyPress(token, times[i], false))
  }

  /** One command of the given kind at each of the given clocks. */
  function SendsAt(kind: Instruction, times: seq<Long>): (ss: seq<Send>)
    ensures |ss| == |times| && forall i :: 0 <= i < |times| ==> ss[i] == Send(kind, times[i])
  {
    seq(|times|, i requires 0 <= i < |times| => Send(kind, times[i]))
  }

  /** A token that does not end the listener, read again and again, sends its
      command once per read, or nothing when it has none; every read is
      consumed and the listener never exits. */
  lemma {:induction false} RepeatedToken(triggerKey: string, token: string, times: seq<Long>)
    requires Classify(token, triggerKey) != ExitListener
    ensures Command(Classify(token, triggerKey)).Some? ==>
      Listen(triggerKey, SamePresses(token, times)) == SendsAt(Command(Classify(token, triggerKey)).value, times)
    ensures Command(Classify(token, triggerKey)).None? ==> Listen(triggerKey, SamePresses(token, times)) == []
    ensures Consumed(triggerKey, SamePresses(token, times)) == |times|
    ensures !Exits(triggerKey, SamePresses(token, times))
    decreases |times|
  {
    if times != [] {
      var ps := SamePresses(token, times);
      assert ps[0] == KeyPress(token, times[0], false);
      assert ps[1..] == SamePresses(token, times[1..]);
      RepeatedToken(triggerKey, token, times[1..]);
      ListenReadsOn(triggerKey, ps);
      var command := Command(Classify(token, triggerKey));
      if command.Some? {
        assert SendsAt(command.value, times) == [Send(command.value, times[0])] + SendsAt(command.value, times[1..]);
      }
    }
  }

  /** The three listener tests as written, where the scanner returns one
      token on every call and the trigger key is "a": every read of "a"
      sends GO and every read of "IDLE" sends IDLE, while "STOP" sends
      nothing however often it is read. */
  lemma ScannerTestsAsWritten(times: seq<Long>)
    ensures Listen("a", SamePresses("a", times)) == SendsAt(GO, times)
    ensures Listen("a", SamePresses("IDLE", times)) == SendsAt(IDLE, times)
    ensures Listen("a", SamePresses("STOP", times)) == []
  {
    TestTokens();
    RepeatedToken("a", "a", times);
    RepeatedToken("a", "IDLE", times);
    RepeatedToken("a", "STOP", times);
  }

  /** A sequence of this model's own that combines the three tests' tokens
      (the trigger key "a", "IDLE" and the unknown "STOP") with an "exit" that
      ends the listener and a "SHUTDOWN" that is never read. */
  function TestPresses(t0: Long, t1: Long, t2: Long, t3: Long, t4: Long): seq<KeyPress> {
    [KeyPress("a", t0, false), KeyPress("IDLE", t1, false), KeyPress("STOP", t2, false),
     KeyPress("exit", t3, false), KeyPress("SHUTDOWN", t4, false)]
  }

  /** How the test tokens are classified with trigger key "a". */
  lemma TestTokens()
    ensures Classify("a", "a") == PublishGo
    ensures Classify("IDLE", "a") == PublishIdle
    ensures Classify("STOP", "a") == Ignore
    ensures Classify("exit", "a") == ExitListener
  {
    assert Classify("a", "a") == PublishGo by {
      assert EqualsIgnoreCase("a", "a");
    }
    assert Classify("IDLE", "a") == PublishIdle by {
      UpperCaseToken("IDLE", "a", "IDLE");
    }
    assert Classify("STOP", "a") == Ignore by {
      UpperCaseToken("STOP", "a", "STOP");
    }
    assert Classify("exit", "a") == ExitListener by {
      UpperCaseToken("exit", "a", "EXIT");
    }
  }

  lemma UpperCaseToken(token: string, triggerKey: string, upper: string)
    requires !EqualsIgnoreCase(token, triggerKey) && ToUpper(token) == upper
    ensures Classify(token, triggerKey) == PublishIdle <==> upper == "IDLE"
    ensures Classify(token, triggerKey) == PublishShutdown <==> upper == "SHUTDOWN"
    ensures Classify(token, triggerKey) == ExitListener <==> upper == "EXIT"
    ensures Classify(token, triggerKey) == Ignore <==> upper != "IDLE" && upper != "SHUTDOWN" && upper != "EXIT"
  {
    ReservedWords(token, triggerKey);
  }

  /** What the listener sends for the test tokens with trigger key "a". */
  lemma TestPressesPublish(t0: Long, t1: Long, t2: Long, t3: Long, t4: Long)
    ensures Listen("a", TestPresses(t0, t1, t2, t3, t4)) == [Send(GO, t0), Send(IDLE, t1)]
  {
    var ps := TestPresses(t0, t1, t2, t3, t4);
    var exit, stop, idle := ps[3..], ps[2..], ps[1..];
    TestTokens();
    assert Listen("a", exit) == [] by {
      assert exit[0] == ps[3];
      ListenStops("a", exit);
    }
    assert Listen("a", stop) == [] by {
      assert stop[0] == ps[2] && stop[1..] == exit;
      ListenReadsOn("a", stop);
      assert Reaction("a", ps[2]) == [];
    }
    assert Listen("a", idle) == [Send(IDLE, t1)] by {
      assert idle[0] == ps[1] && idle[1..] == stop;
      ListenReadsOn("a", idle);
      assert Reaction("a", ps[1]) == [Send(IDLE, t1)];
    }
    assert Listen("a", ps) == [Send(GO, t0), Send(IDLE, t1)] by {
      ListenReadsOn("a", ps);
      assert Reaction("a", ps[0]) == [Send(GO, t0)];
    }
  }

  /** The listener reads the test tokens up to and including "exit". */
  lemma TestPressesExit(t0: Long, t1: Long, t2: Long, t3: Long, t4: Long)
    ensures Consumed("a", TestPresses(t0, t1, t2, t3, t4)) == 4
    ensures Exits("a", TestPresses(t0, t1, t2, t3, t4))
  {
    var ps := TestPresses(t0, t1, t2, t3, t4);
    TestTokens();
    var exit := [ps[3], ps[4]];
    var stop := [ps[2]] + exit;
    var idle := [ps[1]] + stop;
    assert Consumed("a", exit) == 1;
    assert Consumed("a", stop) == 2 by {
      assert stop[1..] == exit;
    }
    assert Consumed("a", idle) == 3 by {
      assert idle[1..] == stop;
    }
    assert Consumed("a", ps) == 4 by {
      assert ps[1..] == idle;
    }
    ExitsWhenSomeTokenIsExit("a", ps);
  }

  /** The listener over the model's own five presses, with the tests'
      trigger key "a", syncTimeout 5000 and exchange "test": "a" publishes a
      GO command and "IDLE" an IDLE command, each with routing key "" and
      null properties; "STOP" publishes nothing; "exit" ends the listener. */
  method ListenerScenario(t0: Long, t1: Long, t2: Long, t3: Long, t4: Long)
    returns (published: seq<Delivery>, read: nat, exited: bool)
    ensures published == [Publication("test", GO, t0, Some(5000)), Publication("test", IDLE, t1, Some(5000))]
    ensures read == 4 && exited
  {
    var channel := new Channel();
    var keyboard := new KeyboardShowTrigger("a", "Test Trigger", 123456, Some(5000), "test", channel);
    TestPressesPublish(t0, t1, t2, t3, t4);
    TestPressesExit(t0, t1, t2, t3, t4);
    read, exited := keyboard.StartListener(TestPresses(t0, t1, t2, t3, t4));
    published := channel.published;
    assert published == Publications("test", Some(5000), [Send(GO, t0), Send(IDLE, t1)]);
  }
}
