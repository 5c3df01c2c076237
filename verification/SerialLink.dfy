/** The serial line between the host's driver and the module's firmware: command frames and their parser. */
module SerialLink {
  import opened Octets

  const WRITE: uint8 := 'W' as int
  const READ: uint8 := 'R' as int

  /** What the firmware does for the driver: an SPI write of some data, or an SPI read of some length. */
  datatype Command = Write(reg: uint8, data: seq<uint8>) | Read(reg: uint8, len: uint8)

  predicate Sendable(c: Command) {
    c.Write? ==> |c.data| <= 0xff
  }

  /** The octets uartTx and uartRx print for a command. */
  function Print(c: Command): seq<uint8>
    requires Sendable(c)
  {
    match c
    case Write(reg, data) => [WRITE, reg, |data|] + data
    case Read(reg, len) => [READ, reg, len]
  }

  class UartDriver {
    var stream: seq<uint8>

    constructor ()
      ensures stream == []
    {
      stream := [];
    }

    method Put(b: uint8)
      modifies this
      ensures stream == old(stream) + [b]
    {
      stream := stream + [b];
    }

    /** uartTx */
    method UartTx(reg: uint8, src: seq<uint8>)
      requires |src| <= 0xff
      modifies this
      ensures stream == old(stream) + Print(Write(reg, src))
    {
      Put(WRITE);
      Put(reg);
      Put(|src|);
      ghost var start := stream;
      var i := 0;
      while i < |src|
        invariant 0 <= i <= |src|
        invariant stream == start + src[..i]
      {
        Put(src[i]);
        i := i + 1;
      }
    }

    /** The request half of uartRx. */
    method UartRxRequest(reg: uint8, len: uint8)
      modifies this
      ensures stream == old(stream) + Print(Read(reg, len))
    {
      Put(READ);
      Put(reg);
      Put(len);
    }
  }

  // ---------------------------------------------------------------- the parser

  /** The firmware between two iterations of loop(). data is buffer[..count - 3] of a write. */
  datatype Parser = Idle | AtReg(command: uint8) | AtLen(command: uint8, reg: uint8)
                  | AtData(reg: uint8, len: uint8, data: seq<uint8>)

  /** One iteration of loop(), with the octet it finds, and the command it carries out, if any. */
  function Step(p: Parser, input: Option<uint8>): (Parser, Option<Command>) {
    if input == None then (p, None) else
    var b := input.value;
    match p
    case Idle => (if b == WRITE || b == READ then AtReg(b) else Idle, None)
    case AtReg(c) => (AtLen(c, b), None)
    case AtLen(c, reg) =>
      if c == READ then (Idle, Some(Read(reg, b)))
      else if b == 0 then (Idle, Some(Write(reg, [])))
      else (AtData(reg, b, []), None)
    case AtData(reg, len, data) =>
      if |data| + 1 >= len then (Idle, Some(Write(reg, data + [b])))
      else (AtData(reg, len, data + [b]), None)
  }

  function Listed(c: Option<Command>): seq<Command> {
    match c
    case None => []
    case Some(x) => [x]
  }

  /** Any number of iterations. */
  function Run(p: Parser, inputs: seq<Option<uint8>>): (Parser, seq<Command>)
    decreases |inputs|
  {
    if inputs == [] then (p, []) else
    var (q, c) := Step(p, inputs[0]);
    var (r, cs) := Run(q, inputs[1..]);
    (r, Listed(c) + cs)
  }

  /** The firmware's globals, and loop() over them. */
  class Firmware {
    var command: uint8  // 0, 'W' or 'R'
    var reg: uint8
    var len: int
    var count: int
    const buffer: array<uint8>
    var executed: seq<Command>   // what went over SPI
    var answered: seq<uint8>     // what went back over the serial line

    ghost predicate Valid()
      reads this, buffer
    {
      && buffer.Length == 255
      && 0 <= count && 0 <= len <= 0xff
      && (count == 0 ==> command == 0 && len == 0)
      && (count > 0 ==> command == WRITE || command == READ)
      && (count <= 2 ==> len == 0)
      && (count > 2 ==> command == WRITE && count < len + 3)
    }

    ghost function State(): Parser
      requires Valid()
      reads this, buffer
    {
      if count == 0 then Idle
      else if count == 1 then AtReg(command)
      else if count == 2 then AtLen(command, reg)
      else AtData(reg, len, buffer[..count - 3])
    }

    constructor ()
      ensures Valid() && fresh(buffer) && State() == Idle && executed == [] && answered == []
    {
      command, reg, len, count := 0, 0, 0, 0;
      buffer := new uint8[255](_ => 0);
      executed, answered := [], [];
    }

    /** Both branches end the same way: everything back to zero. */
    method Reset()
      requires buffer.Length == 255
      modifies `command, `reg, `len, `count, buffer
      ensures Valid() && State() == Idle
    {
      command, reg, len := 0, 0, 0;
      forall i | 0 <= i < buffer.Length {
        buffer[i] := 0;
      }
      count := 0;
    }

    /**
     * One iteration, on an octet if there is one; spi is what the radio chip answers to a read.
     * All buffer accesses are in range for every input whatever.
     */
    method Loop(input: Option<uint8>, spi: seq<uint8>)
      requires Valid() && |spi| >= 0xff
      modifies this, buffer
      ensures Valid()
      ensures var (q, c) := Step(old(State()), input);
              && State() == q && executed == old(executed) + Listed(c)
              && answered == old(answered) + (if c.Some? && c.value.Read? then spi[..c.value.len] else [])
    {
      ghost var before := State();
      if input != None {
        var b := input.value;
        if count == 0 {
          if b == WRITE || b == READ {
            command := b;
            count := count + 1;
          }
        } else if count == 1 {
          reg := b;
          count := count + 1;
        } else if count == 2 {
          len := b;
          count := count + 1;
        } else if command == WRITE && count > 2 && count < len + 3 {
          buffer[count - 3] := b;
          count := count + 1;
        }
      }
      if command == WRITE && count >= len + 3 {
        ghost var q := Step(before, input);
        assert input.Some? && (before.AtData? ==> buffer[..len] == before.data + [input.value]);
        executed := executed + [Write(reg, buffer[..len])];
        assert Listed(q.1) == [Write(reg, buffer[..len])];
        Reset();
      } else if command == READ && count >= 3 {
        var i := 0;
        while i < len
          invariant 0 <= i <= len
          invariant forall k :: 0 <= k < i ==> buffer[k] == spi[k]
          modifies buffer
        {
          buffer[i] := spi[i];
          i := i + 1;
        }
        assert buffer[..len] == spi[..len];
        executed := executed + [Read(reg, len)];
        answered := answered + buffer[..len];
        Reset();
      } else if before.AtData? && input.Some? {
        assert buffer[..count - 3] == before.data + [input.value];
      }
    }
  }

  // ---------------------------------------------------------------- the parser undoes the printer

  /** A stretch of what the firmware hears: an octet that starts nothing, or a whole command. */
  datatype Item = Noise(octet: uint8) | Cmd(command: Command)

  predicate CleanItem(x: Item) {
    match x
    case Noise(b) => b != WRITE && b != READ
    case Cmd(c) => Sendable(c)
  }

  predicate Clean(items: seq<Item>) {
    forall i :: 0 <= i < |items| ==> CleanItem(items[i])
  }

  function Spelling(x: Item): seq<uint8>
    requires x.Cmd? ==> Sendable(x.command)
  {
    match x
    case Noise(b) => [b]
    case Cmd(c) => Print(c)
  }

  function Encode(items: seq<Item>): seq<uint8>
    requires Clean(items)
  {
    if items == [] then [] else
    Spelling(items[0]) + Encode(items[1..])
  }

  function Commands(items: seq<Item>): seq<Command> {
    if items == [] then [] else
    (if items[0].Cmd? then [items[0].command] else []) + Commands(items[1..])
  }

  /** The octets heard, without the iterations that found none. */
  function Heard(inputs: seq<Option<uint8>>): seq<uint8> {
    if inputs == [] then [] else (if inputs[0].Some? then [inputs[0].value] else []) + Heard(inputs[1..])
  }

  /** The same without iterations that find nothing. */
  function Parse(p: Parser, octets: seq<uint8>): (Parser, seq<Command>)
    decreases |octets|
  {
    if octets == [] then (p, []) else
    var (q, c) := Step(p, Some(octets[0]));
    var (r, cs) := Parse(q, octets[1..]);
    (r, Listed(c) + cs)
  }

  lemma {:induction false} IdlingChangesNothing(p: Parser, inputs: seq<Option<uint8>>)
    ensures Run(p, inputs) == Parse(p, Heard(inputs))
    decreases |inputs|
  {
    if inputs == [] {
    } else {
      IdlingChangesNothing(Step(p, inputs[0]).0, inputs[1..]);
      if inputs[0].Some? {
        assert Heard(inputs)[1..] == Heard(inputs[1..]);
      } else {
        assert Heard(inputs) == Heard(inputs[1..]);
        assert Listed(None) + Run(p, inputs[1..]).1 == Run(p, inputs[1..]).1;
      }
    }
  }

  /** One octet first: what it completes comes before what the rest completes. */
  lemma ParseOne(p: Parser, b: uint8, rest: seq<uint8>)
    ensures var (q, c) := Step(p, Some(b));
            && Parse(p, [b] + rest) == (Parse(q, rest).0, Listed(c) + Parse(q, rest).1)
            && (c == None ==> Parse(p, [b] + rest) == Parse(q, rest))
            && (rest == [] ==> Parse(p, [b] + rest) == (q, Listed(c)))
  {
    assert ([b] + rest)[1..] == rest;
    var cs := Parse(Step(p, Some(b)).0, rest).1;
    assert Listed(None) + cs == cs;
    assert Listed(Step(p, Some(b)).1) + [] == Listed(Step(p, Some(b)).1);
  }

  lemma Regroup<T>(a: seq<T>, b: seq<T>, c: seq<T>)
    ensures (a + b) + c == a + (b + c)
  {
  }

  lemma {:induction false} ParseInTwo(p: Parser, a: seq<uint8>, b: seq<uint8>)
    ensures var (q, cs) := Parse(p, a);
            var (r, ds) := Parse(q, b);
            Parse(p, a + b) == (r, cs + ds)
    decreases |a|
  {
    if a == [] {
      assert [] + b == b;
      assert [] + Parse(p, b).1 == Parse(p, b).1;
    } else {
      var (q, c) := Step(p, Some(a[0]));
      ParseInTwo(q, a[1..], b);
      assert a == [a[0]] + a[1..] && a + b == [a[0]] + (a[1..] + b);
      ParseOne(p, a[0], a[1..]);
      ParseOne(p, a[0], a[1..] + b);
      var (r, cs) := Parse(q, a[1..]);
      Regroup(Listed(c), cs, Parse(r, b).1);
    }
  }

  /** The data octets of a write fill the buffer up to the announced length. */
  lemma {:induction false} ParseData(reg: uint8, len: uint8, done: seq<uint8>, todo: seq<uint8>)
    requires todo != [] && |done| + |todo| == len
    ensures Parse(AtData(reg, len, done), todo) == (Idle, [Write(reg, done + todo)])
    decreases |todo|
  {
    var more := done + [todo[0]];
    assert done + todo == more + todo[1..] && todo == [todo[0]] + todo[1..];
    ParseOne(AtData(reg, len, done), todo[0], todo[1..]);
    if |todo| == 1 {
      assert todo[1..] == [] && more + [] == more;
    } else {
      ParseData(reg, len, more, todo[1..]);
    }
  }

  /** The three octets every frame starts with. */
  lemma ParseStart(command: uint8, reg: uint8, len: uint8, data: seq<uint8>)
    requires command == WRITE || command == READ
    ensures Parse(Idle, [command, reg, len] + data) == Parse(AtLen(command, reg), [len] + data)
  {
    assert [command, reg, len] + data == [command] + ([reg] + ([len] + data));
    ParseOne(Idle, command, [reg] + ([len] + data));
    ParseOne(AtReg(command), reg, [len] + data);
  }

  lemma ParsePrinted(c: Command)
    requires Sendable(c)
    ensures Parse(Idle, Print(c)) == (Idle, [c])
  {
    match c
    case Write(reg, data) =>
      ParseStart(WRITE, reg, |data|, data);
      ParseOne(AtLen(WRITE, reg), |data|, data);
      if data != [] {
        ParseData(reg, |data|, [], data);
        assert [] + data == data;
      }
    case Read(reg, len) =>
      assert Print(c) == [READ, reg, len] + [];
      ParseStart(READ, reg, len, []);
      ParseOne(AtLen(READ, reg), len, []);
  }

  lemma ParseItem(x: Item)
    requires CleanItem(x)
    ensures Parse(Idle, Spelling(x)) == (Idle, if x.Cmd? then [x.command] else [])
  {
    match x
    case Noise(b) =>
      assert Spelling(x) == [b] + [];
      ParseOne(Idle, b, []);
    case Cmd(c) => ParsePrinted(c);
  }

  lemma {:induction false} ParseEncoded(items: seq<Item>)
    requires Clean(items)
    ensures Parse(Idle, Encode(items)) == (Idle, Commands(items))
  {
    if items == [] {
    } else {
      ParseItem(items[0]);
      ParseEncoded(items[1..]);
      ParseInTwo(Idle, Spelling(items[0]), Encode(items[1..]));
    }
  }

  /**
   * Whatever commands the driver sends, with noise between them and idle iterations anywhere, the
   * firmware carries out exactly those commands in order and is ready for the next.
   */
  lemma FirmwareExecutesWhatTheDriverSends(items: seq<Item>, inputs: seq<Option<uint8>>)
    requires Clean(items) && Heard(inputs) == Encode(items)
    ensures Run(Idle, inputs) == (Idle, Commands(items))
  {
    IdlingChangesNothing(Idle, inputs);
    ParseEncoded(items);
  }

  // ---------------------------------------------------------------- and every stream is such a stream

  /** The octets of the frame the parser is in the middle of. */
  function Partial(p: Parser): seq<uint8> {
    match p
    case Idle => []
    case AtReg(c) => [c]
    case AtLen(c, reg) => [c, reg]
    case AtData(reg, len, data) => [WRITE, reg, len] + data
  }

  /** The states loop() can be in between iterations. */
  predicate Possible(p: Parser) {
    match p
    case Idle => true
    case AtReg(c) => c == WRITE || c == READ
    case AtLen(c, _) => c == WRITE || c == READ
    case AtData(_, len, data) => |data| < len
  }

  lemma StepKeepsOctets(p: Parser, b: uint8) returns (done: seq<Item>)
    requires Possible(p)
    ensures Possible(Step(p, Some(b)).0) && Clean(done) && Commands(done) == Listed(Step(p, Some(b)).1)
    ensures Partial(p) + [b] == Encode(done) + Partial(Step(p, Some(b)).0)
  {
    var (q, c) := Step(p, Some(b));
    if c.Some? {
      done := [Cmd(c.value)];
      assert done[1..] == [];
    } else if p.Idle? && q.Idle? {
      done := [Noise(b)];
      assert done[1..] == [];
    } else {
      done := [];
    }
  }

  lemma {:induction false} EncodeInTwo(xs: seq<Item>, ys: seq<Item>)
    requires Clean(xs) && Clean(ys)
    ensures Clean(xs + ys) && Encode(xs + ys) == Encode(xs) + Encode(ys)
  {
    if xs == [] {
      assert [] + ys == ys;
    } else {
      assert (xs + ys)[1..] == xs[1..] + ys;
      EncodeInTwo(xs[1..], ys);
      Regroup(Spelling(xs[0]), Encode(xs[1..]), Encode(ys));
    }
  }

  lemma {:induction false} CommandsInTwo(xs: seq<Item>, ys: seq<Item>)
    ensures Commands(xs + ys) == Commands(xs) + Commands(ys)
  {
    if xs == [] {
      assert [] + ys == ys;
    } else {
      assert (xs + ys)[1..] == xs[1..] + ys;
      CommandsInTwo(xs[1..], ys);
      Regroup(if xs[0].Cmd? then [xs[0].command] else [], Commands(xs[1..]), Commands(ys));
    }
  }

  lemma Glue(x: seq<uint8>, b: seq<uint8>, rest: seq<uint8>, e: seq<uint8>, y: seq<uint8>, f: seq<uint8>, z: seq<uint8>)
    requires x + b == e + y && y + rest == f + z
    ensures x + (b + rest) == (e + f) + z
  {
    Regroup(x, b, rest);
    Regroup(e, y, rest);
    Regroup(e, f, z);
  }

  /**
   * No octet is misread: any stream at all is noise and printed commands, the ones carried out, plus
   * the beginning of one more frame.
   */
  lemma {:induction false} EveryStreamIsEncoded(p: Parser, octets: seq<uint8>) returns (items: seq<Item>)
    requires Possible(p)
    ensures Clean(items) && Commands(items) == Parse(p, octets).1 && Possible(Parse(p, octets).0)
    ensures Partial(p) + octets == Encode(items) + Partial(Parse(p, octets).0)
    decreases |octets|
  {
    if octets == [] {
      items := [];
    } else {
      var b := octets[0];
      var q := Step(p, Some(b)).0;
      var done := StepKeepsOctets(p, b);
      var rest := EveryStreamIsEncoded(q, octets[1..]);
      items := done + rest;
      EncodeInTwo(done, rest);
      CommandsInTwo(done, rest);
      ParseOne(p, b, octets[1..]);
      assert octets == [b] + octets[1..];
      Glue(Partial(p), [b], octets[1..], Encode(done), Partial(q), Encode(rest), Partial(Parse(q, octets[1..]).0));
    }
  }
}
