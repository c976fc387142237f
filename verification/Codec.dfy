/** Process data between a ros2_control interface and the wire: packing by the declared type,
    transmission by the dictionary's type, reception and unpacking. Data words are four bytes,
    least significant first (canopen_ros2_control/include/canopen_ros2_control/canopen_system.hpp,
    canopen_base_driver/src/lely_driver_bridge.cpp). */
module Codec {
  import opened Wrappers
  import opened Modes

  newtype byte = x: int | 0 <= x < 256

  datatype IntType = Int8 | Uint8 | Int16 | Uint16 | Int32 | Uint32

  function Width(t: IntType): (w: nat)
    ensures 1 <= w <= 4
  {
    match t
    case Int8 => 1
    case Uint8 => 1
    case Int16 => 2
    case Uint16 => 2
    case Int32 => 4
    case Uint32 => 4
  }

  predicate Signed(t: IntType) {
    t.Int8? || t.Int16? || t.Int32?
  }

  /** Numbers of k bytes. */
  function Power(k: nat): (p: nat)
    ensures p >= 1
  {
    if k == 0 then 1 else 256 * Power(k - 1)
  }

  predicate InRange(t: IntType, v: int) {
    if Signed(t) then 0 <= 2 * v + Power(Width(t)) && 2 * v < Power(Width(t)) else 0 <= v < Power(Width(t))
  }

  /** The k low bytes of v, in two's complement. */
  function Bytes(v: int, k: nat): (b: seq<byte>)
    ensures |b| == k
    decreases k
  {
    if k == 0 then [] else [(v % 256) as byte] + Bytes(v / 256, k - 1)
  }

  function Unsigned(b: seq<byte>): nat {
    if b == [] then 0 else b[0] as int + 256 * Unsigned(b[1..])
  }

  /** The number a type reads from its bytes. */
  function Value(t: IntType, b: seq<byte>): int {
    var u := Unsigned(b);
    if Signed(t) && 2 * u >= Power(Width(t)) then u - Power(Width(t)) else u
  }

  type Data = b: seq<byte> | |b| == 4 witness [0, 0, 0, 0]

  /** memcpy of a value of the type over the first bytes of the word. */
  function Overwrite(word: Data, t: IntType, v: int): Data {
    Bytes(v, Width(t)) + word[Width(t)..]
  }

  /** memcpy of the first bytes of the word into a value of the type. */
  function Peek(word: Data, t: IntType): int {
    Value(t, word[..Width(t)])
  }

  const ZERO: Data := [0, 0, 0, 0]

  // ----- The four stages -----

  /** The type of an interface: one of those that are converted, or another name, whose data
      is taken as a whole word. */
  datatype InterfaceType = Bool | Int(t: IntType) | OtherName

  /** The bytes of the word that an interface uses. */
  function Layout(c: InterfaceType): IntType {
    match c
    case Bool => Uint8
    case Int(t) => t
    case OtherName => Uint32
  }

  /** The value that is packed: a truth value, true for everything but zero, or the command
      truncated toward zero. */
  function Packed(c: InterfaceType, command: Double): int
    requires c.Bool? || command.Finite?
  {
    if c.Bool? then if command == Finite(0.0) then 0 else 1 else Truncate(command.x)
  }

  /** The conversion is defined: to a truth value always, to an integer type within its range. */
  predicate Packable(c: InterfaceType, command: Double) {
    c.Bool? || (command.Finite? && InRange(Layout(c), Truncate(command.x)))
  }

  datatype CoData = CoData(index: int, subindex: int, data: Data)

  /** Write-only data of an interface. */
  class CommandData {
    var originalData: CoData
    var index: int
    var subindex: int
    var data: Double
    const coType: InterfaceType

    constructor (coType: InterfaceType, anything: CoData)
      ensures this.coType == coType && originalData == anything
    {
      this.coType, originalData, index, subindex, data := coType, anything, 0, 0, Finite(0.0);
    }

    method PrepareData()
      requires Packable(coType, data)
      modifies this`originalData
      ensures originalData ==
              CoData(index, subindex, Overwrite(old(originalData.data), Layout(coType), Packed(coType, data)))
      ensures coType.Bool? ==>
                originalData.data == [if data == Finite(0.0) then 0 else 1] + old(originalData.data)[1..]
      ensures !coType.Bool? ==>
                && CutOff(Peek(originalData.data, Layout(coType)), data.x)
                && originalData.data[Width(Layout(coType))..] == old(originalData.data)[Width(Layout(coType))..]
    {
      hide Value, InRange, Truncate, CutOff;
      if !coType.Bool? {
        ValueOfBytes(Layout(coType), Truncate(data.x));
        TruncateCutsOff(data.x, Truncate(data.x));
      }
      var word := originalData.data;
      match coType {
        case Bool =>
          var flag := if data == Finite(0.0) then 0 else 1;
          word := Overwrite(word, Uint8, flag);
        case Int(t) =>
          word := Overwrite(word, t, Truncate(data.x));
        case OtherName =>
          word := Bytes(Truncate(data.x), 4);
      }
      originalData := CoData(index, subindex, word);
    }
  }

  /** The dictionary's type of an object. */
  datatype ObjectType = Boolean | Integer(t: IntType) | Real32 | Unsupported

  /** The bytes of the word that are transmitted for an object; single precision is not implemented. */
  function Transmitted(o: ObjectType): Option<IntType> {
    match o
    case Boolean => Some(Uint8)
    case Integer(t) => Some(t)
    case Real32 => None
    case Unsupported => None
  }

  /** The bytes of the word that are queued for an object that was received. */
  function Queued(o: ObjectType): Option<IntType> {
    if o.Real32? then Some(Uint32) else Transmitted(o)
  }

  /** How many bytes of the word an object uses: single precision is received but not transmitted. */
  lemma ObjectBytes(o: ObjectType)
    ensures (Transmitted(o), Queued(o)) ==
            match o
            case Boolean => (Some(Uint8), Some(Uint8))
            case Integer(t) => (Some(t), Some(t))
            case Real32 => (None, Some(Uint32))
            case Unsupported => (None, None)
  {
  }

  /** A bool in memory is zero or one; what reading another byte as a bool gives is not defined. */
  predicate IsBool(d: Data) {
    d[0] <= 1
  }

  class Bridge {
    const types: map<(int, int), ObjectType>
    var tpdoMapped: map<(int, int), int>
    var values: map<(int, int), int>
    var queue: seq<CoData>

    constructor (types: map<(int, int), ObjectType>)
      ensures this.types == types && tpdoMapped == map[] && values == map[] && queue == []
    {
      this.types, tpdoMapped, values, queue := types, map[], map[], [];
    }

    /** The result is the value whose write event is triggered; an object that was never
        written counts as zero. */
    method TpdoTransmit(d: CoData) returns (sent: Option<int>)
      requires var at := (d.index, d.subindex); at in types && types[at] == Boolean ==> IsBool(d.data)
      modifies this`tpdoMapped, this`values
      ensures var at := (d.index, d.subindex);
              if at !in types then
                sent == None && tpdoMapped == old(tpdoMapped) && values == old(values)
              else if Transmitted(types[at]) == None then
                && sent == Some(if at in tpdoMapped then tpdoMapped[at] else 0)
                && tpdoMapped == old(tpdoMapped) && values == old(values)
              else
                && sent == Some(Peek(d.data, Transmitted(types[at]).value))
                && tpdoMapped == old(tpdoMapped)[at := sent.value] && values == old(values)[at := sent.value]
    {
      var at := (d.index, d.subindex);
      if at !in types {
        return None;
      }
      match types[at] {
        case Boolean =>
          var flag := d.data[0] as int;
          assert Unsigned(d.data[..1]) == flag;
          tpdoMapped := tpdoMapped[at := flag];
          values := values[at := flag];
        case Integer(t) =>
          var val := Peek(d.data, t);
          tpdoMapped := tpdoMapped[at := val];
          values := values[at := val];
        case Real32 =>
        case Unsupported =>
      }
      sent := Some(if at in tpdoMapped then tpdoMapped[at] else 0);
    }

    /** A received process data object holds `arrived` for the object: a number, one or zero
        for a truth value, or the 32-bit pattern of a single-precision value. */
    method OnRpdoWrite(idx: int, sub: int, arrived: int)
      requires (idx, sub) in types && types[(idx, sub)] == Boolean ==> 0 <= arrived <= 1
      modifies this`values, this`queue
      ensures (idx, sub) !in types ==> queue == old(queue) && values == old(values)
      ensures (idx, sub) in types ==>
                match Queued(types[(idx, sub)])
                case None => queue == old(queue) + [CoData(idx, sub, ZERO)] && values == old(values)
                case Some(t) =>
                  && queue == old(queue) + [CoData(idx, sub, Overwrite(ZERO, t, arrived))]
                  && values == old(values)[(idx, sub) := arrived]
    {
      if (idx, sub) !in types {
        return;
      }
      var data := ZERO;
      match types[(idx, sub)] {
        case Boolean =>
          values := values[(idx, sub) := arrived];
          data := data[0 := arrived as byte];
          assert data == Overwrite(ZERO, Uint8, arrived);
        case Integer(t) =>
          values := values[(idx, sub) := arrived];
          data := Overwrite(data, t, arrived);
        case Real32 =>
          values := values[(idx, sub) := arrived];
          data := Overwrite(data, Uint32, arrived);
        case Unsupported =>
      }
      queue := queue + [CoData(idx, sub, data)];
    }
  }

  /** What arrived from a node. */
  class NodeData {
    var originalData: CoData
    var data: real
    const coType: InterfaceType
    var rawData: map<(int, int), Data>
    var typedData: map<(int, int), real>

    constructor (coType: InterfaceType, anything: CoData)
      ensures this.coType == coType && rawData == map[] && typedData == map[]
    {
      this.coType, originalData, data, rawData, typedData := coType, anything, 0.0, map[], map[];
    }

    method PrepareData()
      requires coType.Bool? ==> IsBool(originalData.data)
      modifies this`data
      ensures data == Peek(originalData.data, Layout(coType)) as real
    {
      match coType {
        case Bool =>
          assert Unsigned(originalData.data[..1]) == originalData.data[0] as int;
          data := originalData.data[0] as real;
        case Int(t) =>
          data := Peek(originalData.data, t) as real;
        case OtherName =>
          data := Unsigned(originalData.data[..4]) as real;
      }
    }

    method SetRpdoData(d: CoData)
      requires coType.Bool? ==> IsBool(d.data)
      modifies this
      ensures originalData == d && data == Peek(d.data, Layout(coType)) as real
      ensures rawData == old(rawData)[(d.index, d.subindex) := d.data]
      ensures typedData == old(typedData)[(d.index, d.subindex) := data]
    {
      originalData := d;
      PrepareData();
      rawData := rawData[(d.index, d.subindex) := d.data];
      typedData := typedData[(d.index, d.subindex) := data];
    }
  }

  /** What the other end owes: a truth value arrives as zero or one; another command cut off after
      the point if the dictionary's type is as wide as the interface's or if it fits, and reduced to
      the bytes of the dictionary's type if not. */
  ghost predicate ArrivesRight(c: InterfaceType, command: Double, dictionary: IntType, arrived: real)
    requires Packable(c, command)
  {
    if c.Bool? then arrived == if command == Finite(0.0) then 0.0 else 1.0
    else
      var wide := Width(dictionary) >= Width(Layout(c));
      && (forall v :: CutOff(v, command.x) ==>
            arrived == (if wide || 0 <= v < Power(Width(dictionary)) then v else v % Power(Width(dictionary))) as real)
      && (wide && command.x >= 0.0 ==> arrived <= command.x < arrived + 1.0)
      && (wide && command.x <= 0.0 ==> arrived - 1.0 < command.x <= arrived)
  }

  /** A command from one interface to the interface of the same type at the other end. */
  method Transfer(command: CommandData, sender: Bridge, receiver: Bridge, node: NodeData) returns (arrived: real)
    requires sender != receiver && command.coType == node.coType && sender.types == receiver.types
    requires Packable(command.coType, command.data)
    requires (command.index, command.subindex) in sender.types
    requires var o := sender.types[(command.index, command.subindex)];
             Transmitted(o).Some? && (o.Boolean? ==> command.coType.Bool? || -1.0 < command.data.x < 2.0)
    modifies command`originalData, sender, receiver, node
    ensures var t := Transmitted(sender.types[(command.index, command.subindex)]).value;
            arrived == Pipeline(Layout(command.coType), t, old(command.originalData.data),
                                Packed(command.coType, command.data)) as real
    ensures ArrivesRight(command.coType, command.data,
                         Transmitted(sender.types[(command.index, command.subindex)]).value, arrived)
  {
    hide Value, InRange, Packed, ArrivesRight, Power, Bytes;
    var idx, sub := command.index, command.subindex;
    ghost var stale := command.originalData.data;
    ghost var t := Transmitted(sender.types[(idx, sub)]).value;
    command.PrepareData();
    PackedArrives(command.coType, command.data, t, stale);
    FirstByteKept(Layout(command.coType), t, stale, Packed(command.coType, command.data));
    if sender.types[(idx, sub)].Boolean? { PackedTruth(command.coType, command.data); }
    var sent := sender.TpdoTransmit(command.originalData);
    receiver.OnRpdoWrite(idx, sub, sent.value);
    node.SetRpdoData(receiver.queue[|receiver.queue| - 1]);
    arrived := node.data;
  }

  /** What the other side reads: packed over a stale word as `t`, transmitted and received as
      the dictionary's type, unpacked as `t`. */
  function Pipeline(t: IntType, dictionary: IntType, stale: Data, v: int): int {
    Peek(Overwrite(ZERO, dictionary, Peek(Overwrite(stale, t, v), dictionary)), t)
  }

  // ----- Bytes and numbers -----

  lemma SmallMultiple(d: int, e: int)
    requires -d < d * e < d
    ensures e == 0
  {
  }

  lemma ModOf(x: int, d: int, q: int, r: int)
    requires d > 0 && 0 <= r < d && x == d * q + r
    ensures x % d == r
  {
    assert d * (x / d - q) == r - x % d;
    SmallMultiple(d, x / d - q);
  }

  /** A remainder with one more byte. */
  lemma ModByte(v: int, p: int)
    requires p > 0
    ensures v % (256 * p) == v % 256 + 256 * (v / 256 % p)
  {
    var q := v / 256;
    assert 256 * (p * (q / p)) == (256 * p) * (q / p);
    ModOf(v, 256 * p, q / p, 256 * (q % p) + v % 256);
  }

  lemma {:induction false} UnsignedOfBytes(v: int, k: nat)
    ensures Unsigned(Bytes(v, k)) == v % Power(k)
    decreases k
  {
    if k > 0 {
      UnsignedOfBytes(v / 256, k - 1);
      assert Bytes(v, k)[1..] == Bytes(v / 256, k - 1);
      ModByte(v, Power(k - 1));
    }
  }

  lemma {:induction false} UnsignedBound(b: seq<byte>)
    ensures Unsigned(b) < Power(|b|)
  {
    if b != [] {
      UnsignedBound(b[1..]);
    }
  }

  lemma {:induction false} BytesOfUnsigned(b: seq<byte>)
    ensures Bytes(Unsigned(b), |b|) == b
  {
    if b != [] {
      BytesOfUnsigned(b[1..]);
      assert Unsigned(b) / 256 == Unsigned(b[1..]) && Unsigned(b) % 256 == b[0] as int;
      assert b == [b[0]] + b[1..];
    }
  }

  lemma {:induction false} BytesPeriodic(v: int, k: nat)
    ensures Bytes(v - Power(k), k) == Bytes(v, k)
    decreases k
  {
    if k > 0 {
      var p := Power(k - 1);
      assert (v - 256 * p) / 256 == v / 256 - p && (v - 256 * p) % 256 == v % 256;
      BytesPeriodic(v / 256, k - 1);
    }
  }

  lemma {:induction false} BytesPrefix(v: int, k: nat, j: nat)
    requires j <= k
    ensures Bytes(v, k)[..j] == Bytes(v, j)
    decreases k
  {
    if j > 0 {
      BytesPrefix(v / 256, k - 1, j - 1);
      assert Bytes(v, k)[..j] == [(v % 256) as byte] + Bytes(v / 256, k - 1)[..j - 1];
    }
  }

  lemma {:induction false} UnsignedPadded(b: seq<byte>, zeros: seq<byte>)
    requires forall z <- zeros :: z == 0
    ensures Unsigned(b + zeros) == Unsigned(b)
    decreases |b| + |zeros|
  {
    if b != [] {
      assert (b + zeros)[1..] == b[1..] + zeros;
      UnsignedPadded(b[1..], zeros);
    } else if zeros != [] {
      assert b + zeros == zeros && b + zeros[1..] == zeros[1..];
      assert zeros[0] in zeros && forall z <- zeros[1..] :: z in zeros;
      UnsignedPadded(b, zeros[1..]);
    } else {
      assert b + zeros == b;
    }
  }

  lemma PowerGrows(j: nat, k: nat)
    requires j < k
    ensures 256 * Power(j) <= Power(k)
  {
  }

  lemma SmallMod(x: int, d: int)
    requires d > 0
    ensures 0 <= x < d <==> x % d == x
    ensures -d <= x < 0 ==> x % d == x + d
  {
  }

  /** A value in range survives its own type. */
  lemma ValueOfBytes(t: IntType, v: int)
    requires InRange(t, v)
    ensures Value(t, Bytes(v, Width(t))) == v
  {
    UnsignedOfBytes(v, Width(t));
    SmallMod(v, Power(Width(t)));
  }

  /** The bytes read as a value of the dictionary's type are the bytes it sends. */
  lemma BytesOfValue(t: IntType, b: seq<byte>)
    requires |b| == Width(t)
    ensures Bytes(Value(t, b), Width(t)) == b && InRange(t, Value(t, b))
  {
    BytesOfUnsigned(b);
    BytesPeriodic(Unsigned(b), Width(t));
    UnsignedBound(b);
  }

  /** The word received: as many of the packed bytes as the dictionary's type has, then zeros. */
  lemma Received(t: IntType, dictionary: IntType, stale: Data, v: int)
    ensures var packed := Overwrite(stale, t, v);
            Overwrite(ZERO, dictionary, Peek(packed, dictionary)) ==
            packed[..Width(dictionary)] + ZERO[Width(dictionary)..]
  {
    BytesOfValue(dictionary, Overwrite(stale, t, v)[..Width(dictionary)]);
  }

  /** The first byte comes through, whatever the two types. */
  lemma FirstByteKept(t: IntType, dictionary: IntType, stale: Data, v: int)
    ensures var packed := Overwrite(stale, t, v);
            var received := Overwrite(ZERO, dictionary, Peek(packed, dictionary));
            && packed[0] == received[0] == (v % 256) as byte
            && (dictionary == Uint8 ==> Peek(packed, dictionary) == packed[0] as int)
  {
    Received(t, dictionary, stale, v);
    var packed := Overwrite(stale, t, v);
    assert packed[..1] == [packed[0]] && Unsigned([packed[0]]) == packed[0] as int;
  }

  lemma PipelineWide(t: IntType, dictionary: IntType, stale: Data, v: int)
    requires InRange(t, v) && Width(dictionary) >= Width(t)
    ensures Pipeline(t, dictionary, stale, v) == v
  {
    hide Bytes, Value, Unsigned;
    var packed, wt, wd := Overwrite(stale, t, v), Width(t), Width(dictionary);
    Received(t, dictionary, stale, v);
    assert (packed[..wd] + ZERO[wd..])[..wt] == Bytes(v, wt);
    ValueOfBytes(t, v);
  }

  /** The value of some bytes, filled up with zeros. */
  lemma ValueOfPadded(t: IntType, b: seq<byte>, zeros: seq<byte>)
    requires |b| < Width(t) == |b| + |zeros| && forall z <- zeros :: z == 0
    ensures Value(t, b + zeros) == Unsigned(b)
  {
    UnsignedPadded(b, zeros);
    UnsignedBound(b);
    PowerGrows(|b|, Width(t));
  }

  lemma PipelineNarrow(t: IntType, dictionary: IntType, stale: Data, v: int)
    requires InRange(t, v) && Width(dictionary) < Width(t)
    ensures Pipeline(t, dictionary, stale, v) == v % Power(Width(dictionary))
  {
    hide Bytes, Value, Unsigned, Power, InRange;
    var packed, wt, wd := Overwrite(stale, t, v), Width(t), Width(dictionary);
    Received(t, dictionary, stale, v);
    BytesPrefix(v, wt, wd);
    assert packed[..wd] == Bytes(v, wt)[..wd];
    assert (packed[..wd] + ZERO[wd..])[..wt] == packed[..wd] + ZERO[wd..wt];
    ValueOfPadded(t, packed[..wd], ZERO[wd..wt]);
    UnsignedOfBytes(v, wd);
  }

  /** The integer pipeline is faithful exactly when the dictionary's type is at least as wide
      as the declared one, or the value needs no more than the dictionary's bytes and is not
      negative. Stale bytes of the packed word never matter, and otherwise the value arrives
      reduced to the dictionary's bytes. */
  lemma PipelineExactly(t: IntType, dictionary: IntType, stale: Data, v: int)
    requires InRange(t, v)
    ensures Pipeline(t, dictionary, stale, v) == v <==>
            Width(dictionary) >= Width(t) || 0 <= v < Power(Width(dictionary))
    ensures Width(dictionary) < Width(t) ==> Pipeline(t, dictionary, stale, v) == v % Power(Width(dictionary))
  {
    hide Pipeline, Power;
    if Width(dictionary) >= Width(t) {
      PipelineWide(t, dictionary, stale, v);
    } else {
      PipelineNarrow(t, dictionary, stale, v);
      SmallMod(v, Power(Width(dictionary)));
    }
  }

  lemma PackedTruth(c: InterfaceType, command: Double)
    requires c.Bool? || (command.Finite? && -1.0 < command.x < 2.0)
    ensures 0 <= Packed(c, command) <= 1
  {
  }

  /** What comes out of the pipeline for a command that is packed. */
  lemma PackedArrives(c: InterfaceType, command: Double, dictionary: IntType, stale: Data)
    requires Packable(c, command)
    ensures ArrivesRight(c, command, dictionary, Pipeline(Layout(c), dictionary, stale, Packed(c, command)) as real)
  {
    hide Pipeline, Truncate;
    PipelineExactly(Layout(c), dictionary, stale, Packed(c, command));
    if !c.Bool? {
      forall v | CutOff(v, command.x) ensures v == Packed(c, command) {
        TruncateCutsOff(command.x, v);
      }
      TruncateCutsOff(command.x, Truncate(command.x));
    }
  }

  // ----- The standard's types -----

  lemma DivDiv(v: int, p: int)
    requires p > 0
    ensures v / 256 / p == v / (256 * p)
  {
    ModByte(v, p);
    var q := v / 256;
    assert v == 256 * q + v % 256 && q == p * (q / p) + q % p;
    assert v == 256 * p * (v / (256 * p)) + v % (256 * p);
    assert 256 * p * (v / (256 * p) - q / p) == 0;
    SmallMultiple(256 * p, v / (256 * p) - q / p);
  }

  /** The bytes are the digits to base 256, least significant first. */
  lemma {:induction false} ByteAt(v: int, k: nat, i: nat)
    requires i < k
    ensures Bytes(v, k)[i] as int == v / Power(i) % 256
    decreases k
  {
    if i > 0 {
      ByteAt(v / 256, k - 1, i - 1);
      DivDiv(v, Power(i - 1));
    }
  }

  /** The six types with their widths and ranges. */
  lemma TypeRanges(t: IntType, v: int)
    ensures InRange(t, v) <==>
            match t
            case Int8 => -128 <= v <= 127
            case Uint8 => 0 <= v <= 255
            case Int16 => -32768 <= v <= 32767
            case Uint16 => 0 <= v <= 65535
            case Int32 => -2147483648 <= v <= 2147483647
            case Uint32 => 0 <= v <= 4294967295
    ensures Power(Width(t)) == if t.Int8? || t.Uint8? then 256 else if t.Int16? || t.Uint16? then 65536 else 4294967296
  {
    assert Power(0) == 1 && Power(1) == 256 && Power(2) == 65536 && Power(3) == 16777216;
    assert Power(4) == 256 * Power(3);
  }

  /** With the dictionary's type as declared, every command in range arrives truncated toward
      zero, whatever bytes the word held before. */
  lemma MatchingTypesRoundTrip(t: IntType, stale: Data, command: real)
    requires InRange(t, Truncate(command))
    ensures var arrived := Pipeline(t, t, stale, Truncate(command)) as real;
            && arrived == Truncate(command) as real
            && (command >= 0.0 ==> arrived <= command < arrived + 1.0)
            && (command <= 0.0 ==> arrived - 1.0 < command <= arrived)
  {
    PipelineExactly(t, t, stale, Truncate(command));
  }

  /** A truth value arrives as zero or one through a dictionary object of any type, and a
      command that is not a number arrives as true. */
  lemma BoolRoundTrip(dictionary: IntType, stale: Data, command: Double)
    ensures Pipeline(Layout(Bool), dictionary, stale, Packed(Bool, command)) == if command == Finite(0.0) then 0 else 1
  {
    PipelineExactly(Uint8, dictionary, stale, Packed(Bool, command));
  }
}
