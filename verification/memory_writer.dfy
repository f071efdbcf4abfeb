/**
 MemoryTsRandomAccessFileWriter: a TsFile output that keeps every byte in a
 java.io.ByteArrayOutputStream. It is append-only: the position is the number
 of bytes written, every write appends, close changes nothing (closing a
 ByteArrayOutputStream has no effect), and truncate always throws.
 */
module MemoryWriter {
  import opened JavaSemantics

  newtype byte = x: int | 0 <= x < 256

  /** A java.io.ByteArrayOutputStream: its state is the bytes written to it. */
  datatype ByteArrayOutputStream = ByteArrayOutputStream(buf: seq<byte>)

  /** toByteArray(): the bytes written to the stream so far. */
  function ToByteArray(s: ByteArrayOutputStream): seq<byte> {
    s.buf
  }

  /** size(): the number of bytes written to the stream. */
  function Size(s: ByteArrayOutputStream): (n: nat)
    ensures n == |ToByteArray(s)|
  {
    |s.buf|
  }

  /** `(byte) b`: the low-order 8 bits of an `int`. */
  function LowByte(b: int): (r: byte)
    ensures (r as int - b) % 256 == 0
    ensures 0 <= b < 256 ==> r as int == b
  {
    (b % 256) as byte
  }

  /** The stream's write(byte[]): appends every byte of b, in order. */
  function StreamWrite(s: ByteArrayOutputStream, b: seq<byte>): (s': ByteArrayOutputStream)
    ensures ToByteArray(s') == ToByteArray(s) + b
  {
    ByteArrayOutputStream(s.buf + b)
  }

  /** The stream's write(int): appends the low-order 8 bits of b. */
  function StreamWriteByte(s: ByteArrayOutputStream, b: int): (s': ByteArrayOutputStream)
    ensures Size(s') == Size(s) + 1
    ensures ToByteArray(s')[..Size(s)] == ToByteArray(s)
    ensures ToByteArray(s')[Size(s)] == LowByte(b)
  {
    ByteArrayOutputStream(s.buf + [LowByte(b)])
  }

  /** The stream's write(byte[] b, int off, int len): appends b[off..off + len],
      or throws IndexOutOfBoundsException, writing nothing, when that range
      is not inside b. */
  function StreamWriteSlice(s: ByteArrayOutputStream, b: seq<byte>, off: int, len: int): (r: Result<ByteArrayOutputStream>)
    ensures r.Err? <==> off < 0 || len < 0 || off + len > |b|
    ensures r.Err? ==> r.error == IndexOutOfBoundsException
    ensures r.Ok? ==> ToByteArray(r.value) == ToByteArray(s) + b[off..off + len]
  {
    if off < 0 || len < 0 || off + len > |b| then Err(IndexOutOfBoundsException)
    else Ok(ByteArrayOutputStream(s.buf + b[off..off + len]))
  }

  /** The writer's state: its ByteArrayOutputStream. */
  datatype Writer = Writer(outputStream: ByteArrayOutputStream)

  /** The bytes the writer's stream holds. */
  function Contents(w: Writer): seq<byte> {
    ToByteArray(w.outputStream)
  }

  /** `new MemoryTsRandomAccessFileWriter()`: an empty stream. */
  function Create(): (w: Writer)
    ensures GetPos(w) == 0 && Contents(w) == []
  {
    Writer(ByteArrayOutputStream([]))
  }

  /** getPos(): the stream's size(). */
  function GetPos(w: Writer): (pos: int)
    ensures pos == |Contents(w)|
  {
    Size(w.outputStream)
  }

  /** write(byte[] b): appends every byte of b, in order. */
  function WriteBytes(w: Writer, b: seq<byte>): (w': Writer)
    ensures Contents(w') == Contents(w) + b
    ensures GetPos(w') == GetPos(w) + |b|
  {
    Writer(StreamWrite(w.outputStream, b))
  }

  /** write(int b): appends one byte, the low-order 8 bits of b. */
  function WriteInt(w: Writer, b: int): (w': Writer)
    ensures GetPos(w') == GetPos(w) + 1
    ensures Contents(w')[..GetPos(w)] == Contents(w)
    ensures Contents(w')[GetPos(w)] == LowByte(b)
  {
    Writer(StreamWriteByte(w.outputStream, b))
  }

  /** getOutputStream(): the writer's own stream, not a copy. Its size is the
      writer's position, and a write made through it changes the writer
      exactly as the writer's own write of the same bytes does. */
  function GetOutputStream(w: Writer): (s: ByteArrayOutputStream)
    ensures Size(s) == GetPos(w)
    ensures forall b :: Writer(StreamWrite(s, b)) == WriteBytes(w, b)
    ensures forall b :: Writer(StreamWriteByte(s, b)) == WriteInt(w, b)
  {
    w.outputStream
  }

  /** truncate(length): not supported. It throws an IOException for every
      length and leaves the buffer as it was. */
  function Truncate(w: Writer, length: int): (r: (Writer, Option<JavaException>))
    ensures r.0 == w
    ensures r.1.Some? && r.1.value.IOException?
  {
    (w, Some(IOException("not implmenent the `truncate` function")))
  }

  /** close(): closing a ByteArrayOutputStream has no effect; the writer can
      still be written to and read afterwards. */
  function Close(w: Writer): (w': Writer)
    ensures Contents(w') == Contents(w)
    ensures forall b :: Contents(WriteBytes(w', b)) == Contents(w) + b
  {
    w
  }

  /** A call a client makes: one of the writer's own operations, or
      (`StreamSlice`) write(byte[], int, int) on the stream getOutputStream
      returns, which lands in the writer's buffer because that stream is the
      writer's own. The stream's write(byte[]) and write(int) need no call of
      their own: GetOutputStream shows they act as WriteArray and WriteByte. */
  datatype Call =
    | WriteArray(bytes: seq<byte>)
    | WriteByte(b: int)
    | TruncateTo(length: int)
    | CloseWriter
    | StreamSlice(bytes: seq<byte>, off: int, len: int)

  /** Performs one call: the state after it and the exception it threw, if any. */
  function Step(w: Writer, call: Call): (Writer, Option<JavaException>) {
    match call
    case WriteArray(bytes) => (WriteBytes(w, bytes), None)
    case WriteByte(b) => (WriteInt(w, b), None)
    case TruncateTo(length) => Truncate(w, length)
    case CloseWriter => (Close(w), None)
    case StreamSlice(bytes, off, len) =>
      match StreamWriteSlice(GetOutputStream(w), bytes, off, len)
      case Err(e) => (w, Some(e))
      case Ok(s) => (Writer(s), None)
  }

  /** Performs the calls in order, the caller catching each exception; returns
      the final state and the number of calls that threw. */
  function Replay(w: Writer, calls: seq<Call>): (Writer, nat)
    decreases |calls|
  {
    if |calls| == 0 then (w, 0)
    else
      var (w1, thrown) := Step(w, calls[0]);
      var (w2, n) := Replay(w1, calls[1..]);
      (w2, n + if thrown.Some? then 1 else 0)
  }

  /** off and len select a range of an array of n bytes. */
  predicate InBounds(n: nat, off: int, len: int) {
    0 <= off && 0 <= len && off + len <= n
  }

  /** The bytes a call sequence writes, read off the calls alone. */
  function BytesWritten(calls: seq<Call>): seq<byte>
    decreases |calls|
  {
    if |calls| == 0 then []
    else
      var here := match calls[0]
        case WriteArray(bytes) => bytes
        case WriteByte(b) => [LowByte(b)]
        case StreamSlice(bytes, off, len) => if InBounds(|bytes|, off, len) then bytes[off..off + len] else []
        case _ => [];
      here + BytesWritten(calls[1..])
  }

  /** The number of calls in a sequence that throw: every truncate, and every
      slice write whose range is not inside its array. */
  function Failures(calls: seq<Call>): nat
    decreases |calls|
  {
    if |calls| == 0 then 0
    else
      var fails := match calls[0]
        case TruncateTo(_) => true
        case StreamSlice(bytes, off, len) => !InBounds(|bytes|, off, len)
        case _ => false;
      (if fails then 1 else 0) + Failures(calls[1..])
  }

  /** After any sequence of calls the stream holds exactly the bytes written
      before plus every byte the calls wrote, in order; the position is its
      length; and exactly the truncates and the out-of-range slice writes
      threw. */
  lemma {:induction false} ReplayAppends(w: Writer, calls: seq<Call>)
    ensures Contents(Replay(w, calls).0) == Contents(w) + BytesWritten(calls)
    ensures GetPos(Replay(w, calls).0) == GetPos(w) + |BytesWritten(calls)|
    ensures Replay(w, calls).1 == Failures(calls)
    decreases |calls|
  {
    if |calls| > 0 {
      var w1 := Step(w, calls[0]).0;
      ReplayAppends(w1, calls[1..]);
    }
  }

  /** From a fresh writer, getOutputStream's toByteArray() is exactly what
      the calls wrote. */
  lemma FreshWriterHoldsWrites(calls: seq<Call>)
    ensures ToByteArray(GetOutputStream(Replay(Create(), calls).0)) == BytesWritten(calls)
    ensures GetPos(Replay(Create(), calls).0) == |BytesWritten(calls)|
  {
    ReplayAppends(Create(), calls);
  }
}
