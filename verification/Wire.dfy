/** The message format of the thread proxy (src/thread_proxy.h): an opcode followed by
    the bytes of each argument, with nothing between them. An argument list is a
    sequence of byte strings; its types are known to both ends only as sizes. */
module Wire {
  import opened Common

  type Byte = b: int | 0 <= b < 256
  type Bytes = seq<Byte>

  const OPCODE_SIZE: nat := 4
  const MAX_ARGUMENTS_SIZE: nat := 1024
  const MAX_MESSAGE_SIZE: nat := MAX_ARGUMENTS_SIZE + OPCODE_SIZE

  /** The number of values of uint32_t. */
  const OPCODE_LIMIT: nat := 0x1_0000_0000

  // ---------------------------------------------------------------- arguments

  function Sum(sizes: seq<nat>): nat {
    if sizes == [] then 0 else sizes[0] + Sum(sizes[1..])
  }

  function Sizes(args: seq<Bytes>): (r: seq<nat>)
    ensures |r| == |args|
    ensures forall i :: 0 <= i < |args| ==> r[i] == |args[i]|
  {
    if args == [] then [] else [|args[0]|] + Sizes(args[1..])
  }

  function ArgumentsSize(args: seq<Bytes>): nat {
    if args == [] then 0 else |args[0]| + ArgumentsSize(args[1..])
  }

  /** What a packed argument list must look like: the concatenation of its members. */
  function Flatten(args: seq<Bytes>): Bytes {
    if args == [] then [] else args[0] + Flatten(args[1..])
  }

  lemma {:induction false} FlattenSize(args: seq<Bytes>)
    ensures |Flatten(args)| == ArgumentsSize(args) == Sum(Sizes(args))
  {
    if args != [] {
      FlattenSize(args[1..]);
      assert Sizes(args)[1..] == Sizes(args[1..]);
    }
  }

  /** Unpacks the head by copying its size, then the tail from behind it. */
  function TupleFromBuffer(buffer: Bytes, sizes: seq<nat>): (r: seq<Bytes>)
    requires Sum(sizes) <= |buffer|
    decreases |sizes|
  {
    if sizes == [] then []
    else [buffer[..sizes[0]]] + TupleFromBuffer(buffer[sizes[0]..], sizes[1..])
  }

  /** Unpacking gives back the packed values, whatever bytes follow them. */
  lemma {:induction false} UnpackPacked(args: seq<Bytes>, rest: Bytes)
    ensures Sum(Sizes(args)) <= |Flatten(args) + rest|
    ensures TupleFromBuffer(Flatten(args) + rest, Sizes(args)) == args
  {
    FlattenSize(args);
    if args != [] {
      var buffer := Flatten(args) + rest;
      assert buffer[..|args[0]|] == args[0];
      assert buffer[|args[0]|..] == Flatten(args[1..]) + rest;
      assert Sizes(args)[1..] == Sizes(args[1..]);
      UnpackPacked(args[1..], rest);
    }
  }

  /** The other direction: unpacking loses nothing of the bytes it covers, so two
      different buffers never unpack to the same values. */
  lemma {:induction false} PackUnpacked(buffer: Bytes, sizes: seq<nat>)
    requires Sum(sizes) <= |buffer|
    ensures Flatten(TupleFromBuffer(buffer, sizes)) == buffer[..Sum(sizes)]
    ensures Sizes(TupleFromBuffer(buffer, sizes)) == sizes
    decreases |sizes|
  {
    if sizes != [] {
      var tail := TupleFromBuffer(buffer[sizes[0]..], sizes[1..]);
      PackUnpacked(buffer[sizes[0]..], sizes[1..]);
      var all := TupleFromBuffer(buffer, sizes);
      assert all[1..] == tail;
      assert buffer[..Sum(sizes)] == buffer[..sizes[0]] + buffer[sizes[0]..][..Sum(sizes[1..])];
      assert Sizes(all) == [sizes[0]] + sizes[1..];
    }
  }

  // ------------------------------------------------------------------ opcodes

  /** The conversion of a table index to uint32_t. */
  function Truncate(index: nat): nat { index % OPCODE_LIMIT }

  function LittleEndian(n: nat, width: nat): (r: Bytes)
    ensures |r| == width
  {
    if width == 0 then [] else [n % 256] + LittleEndian(n / 256, width - 1)
  }

  function Number(bytes: Bytes): nat {
    if bytes == [] then 0 else (bytes[0] as int) + 256 * Number(bytes[1..])
  }

  function Range(width: nat): nat {
    if width == 0 then 1 else 256 * Range(width - 1)
  }

  lemma {:induction false} NumberRoundTrip(n: nat, width: nat)
    requires n < Range(width)
    ensures Number(LittleEndian(n, width)) == n
  {
    if width > 0 {
      NumberRoundTrip(n / 256, width - 1);
      assert LittleEndian(n, width)[1..] == LittleEndian(n / 256, width - 1);
    }
  }

  function EncodeOpcode(opcode: nat): Bytes
    requires opcode < OPCODE_LIMIT
  {
    LittleEndian(opcode, OPCODE_SIZE)
  }

  function DecodeOpcode(buffer: Bytes): nat
    requires |buffer| >= OPCODE_SIZE
  {
    Number(buffer[..OPCODE_SIZE])
  }

  lemma OpcodeRoundTrip(opcode: nat, rest: Bytes)
    requires opcode < OPCODE_LIMIT
    ensures DecodeOpcode(EncodeOpcode(opcode) + rest) == opcode
  {
    var code := EncodeOpcode(opcode);
    assert (code + rest)[..OPCODE_SIZE] == code;
    assert Range(4) == OPCODE_LIMIT;
    NumberRoundTrip(opcode, OPCODE_SIZE);
  }

  // ----------------------------------------------------------------- messages

  function Message(opcode: nat, args: seq<Bytes>): Bytes
    requires opcode < OPCODE_LIMIT
  {
    EncodeOpcode(opcode) + Flatten(args)
  }

  /** A received message determines the opcode and the arguments, whatever the rest of
      the receive buffer holds. */
  lemma {:induction false} MessageRoundTrip(opcode: nat, args: seq<Bytes>, tail: Bytes)
    requires opcode < OPCODE_LIMIT
    ensures |Message(opcode, args)| == OPCODE_SIZE + ArgumentsSize(args)
    ensures DecodeOpcode(Message(opcode, args) + tail) == opcode
    ensures Sum(Sizes(args)) <= |(Message(opcode, args) + tail)[OPCODE_SIZE..]|
    ensures TupleFromBuffer((Message(opcode, args) + tail)[OPCODE_SIZE..], Sizes(args)) == args
  {
    FlattenSize(args);
    assert Message(opcode, args) + tail == EncodeOpcode(opcode) + (Flatten(args) + tail);
    OpcodeRoundTrip(opcode, Flatten(args) + tail);
    assert (Message(opcode, args) + tail)[OPCODE_SIZE..] == Flatten(args) + tail;
    UnpackPacked(args, tail);
  }

  lemma MessageOpcode(opcode: nat, args: seq<Bytes>)
    requires opcode < OPCODE_LIMIT
    ensures |Message(opcode, args)| >= OPCODE_SIZE
    ensures DecodeOpcode(Message(opcode, args)) == opcode
  {
    var message := Message(opcode, args);
    assert message + [] == message;
    MessageRoundTrip(opcode, args, []);
  }

  /** A thunk's message reaches its own handler exactly when its table index survives
      the conversion to uint32_t. */
  lemma OpcodeNamesItsIndex(index: nat, args: seq<Bytes>, tail: Bytes)
    ensures DecodeOpcode(Message(Truncate(index), args) + tail) == index <==> index < OPCODE_LIMIT
  {
    MessageRoundTrip(Truncate(index), args, tail);
  }

  /** The first table index that goes wrong is sent as opcode 0, the destructor's. */
  lemma FirstTruncatedOpcode(args: seq<Bytes>, tail: Bytes)
    ensures DecodeOpcode(Message(Truncate(OPCODE_LIMIT), args) + tail) == 0
  {
    MessageRoundTrip(0, args, tail);
  }

  // ---------------------------------------------------------------- in place

  /** Writes the arguments one behind the other from `at` on; no other byte changes. */
  method PackBuffer(buffer: array<Byte>, at: nat, args: seq<Bytes>)
    requires at + ArgumentsSize(args) <= buffer.Length
    modifies buffer
    ensures buffer[..] == old(buffer[..at]) + Flatten(args) + old(buffer[at + ArgumentsSize(args)..])
    decreases |args|
  {
    FlattenSize(args);
    if args != [] {
      var head := args[0];
      forall k | 0 <= k < |head| {
        buffer[at + k] := head[k];
      }
      ghost var mid := buffer[..];
      assert mid[..at + |head|] == old(buffer[..at]) + head;
      assert mid[at + ArgumentsSize(args)..] == old(buffer[at + ArgumentsSize(args)..]);
      PackBuffer(buffer, at + |head|, args[1..]);
      Associate(old(buffer[..at]), head, Flatten(args[1..]));
    }
  }

  /** Builds one message in a stack buffer. The argument bound is the static_assert of
      register_op; it keeps every write inside the buffer. */
  method BuildMessage(opcode: nat, args: seq<Bytes>) returns (message: Bytes)
    requires opcode < OPCODE_LIMIT
    requires ArgumentsSize(args) < MAX_ARGUMENTS_SIZE
    ensures message == Message(opcode, args)
    ensures |message| == OPCODE_SIZE + ArgumentsSize(args) < MAX_MESSAGE_SIZE
  {
    FlattenSize(args);
    var buffer := new Byte[MAX_MESSAGE_SIZE];
    var code := EncodeOpcode(opcode);
    forall k | 0 <= k < OPCODE_SIZE {
      buffer[k] := code[k];
    }
    assert buffer[..OPCODE_SIZE] == code;
    PackBuffer(buffer, OPCODE_SIZE, args);
    message := buffer[..OPCODE_SIZE + ArgumentsSize(args)];
  }
}
