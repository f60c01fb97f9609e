/** Zero-copy payloading: video data stays in a file; what travels is the descriptor and a 24-byte message that says
    which part of the file is meant. */
module Payload {
  import opened Basics
  import opened Buffers
  import opened FdMemories

  // ---- The message ----

  datatype FDMessage = FDMessage(captureTimestamp: nat, offset: nat, size: nat)

  const MESSAGE_SIZE: nat := 24

  predicate Encodable(m: FDMessage) { m.captureTimestamp < TWO_64 && m.offset < TWO_64 && m.size < TWO_64 }

  function Pow256(n: nat): nat { if n == 0 then 1 else 256 * Pow256(n - 1) }

  /** The `n` low bytes of `v`, least significant first. */
  function EncodeInt(v: nat, n: nat): (s: seq<byte>)
    ensures |s| == n
  {
    if n == 0 then [] else [(v % 256) as byte] + EncodeInt(v / 256, n - 1)
  }

  function DecodeInt(s: seq<byte>): nat {
    if s == [] then 0 else s[0] as nat + 256 * DecodeInt(s[1..])
  }

  lemma {:induction false} IntRoundTrip(v: nat, n: nat)
    requires v < Pow256(n)
    ensures DecodeInt(EncodeInt(v, n)) == v
  {
    if n > 0 {
      IntRoundTrip(v / 256, n - 1);
      assert EncodeInt(v, n)[1..] == EncodeInt(v / 256, n - 1);
    }
  }

  function Encode(m: FDMessage): (s: seq<byte>)
    ensures |s| == MESSAGE_SIZE
  {
    EncodeInt(m.captureTimestamp, 8) + EncodeInt(m.offset, 8) + EncodeInt(m.size, 8)
  }

  function Decode(s: seq<byte>): FDMessage
    requires |s| == MESSAGE_SIZE
  {
    FDMessage(DecodeInt(s[..8]), DecodeInt(s[8..16]), DecodeInt(s[16..]))
  }

  lemma DivideTwice(v: nat, d: nat)
    requires d > 0
    ensures v / 256 / d == v / (256 * d)
  {
    var q, r, t := v / 256 / d, v / 256 % d, v % 256;
    assert v == 256 * (v / 256) + t && v / 256 == q * d + r;
    assert v == q * (256 * d) + (256 * r + t) && 256 * r + t < 256 * d;
    QuotientIs(v, 256 * d, q, 256 * r + t);
  }

  lemma QuotientIs(v: nat, d: nat, q: nat, rest: nat)
    requires v == q * d + rest && rest < d
    ensures v / d == q
  {
    var k := v / d;
    assert v == k * d + v % d;
    if k < q {
      NotBelow(k + 1, q, d);
    } else if k > q {
      NotBelow(q + 1, k, d);
    }
  }

  lemma {:induction false} Pow256Positive(n: nat)
    ensures Pow256(n) > 0
  {
    if n > 0 {
      Pow256Positive(n - 1);
    }
  }

  lemma {:induction false} EncodeIntAt(v: nat, n: nat, k: nat)
    requires k < n
    ensures Pow256(k) > 0 && EncodeInt(v, n)[k] as nat == v / Pow256(k) % 256
  {
    Pow256Positive(k);
    if k > 0 {
      Pow256Positive(k - 1);
      EncodeIntAt(v / 256, n - 1, k - 1);
      DivideTwice(v, Pow256(k - 1));
    }
  }

  /** The message holds the timestamp, the offset and the size, in this order, eight bytes each, low byte first. */
  lemma MessageLayout(m: FDMessage, k: nat)
    requires k < 8
    ensures Pow256(k) > 0
    ensures Encode(m)[k] as nat == m.captureTimestamp / Pow256(k) % 256
    ensures Encode(m)[8 + k] as nat == m.offset / Pow256(k) % 256
    ensures Encode(m)[16 + k] as nat == m.size / Pow256(k) % 256
  {
    EncodeIntAt(m.captureTimestamp, 8, k);
    EncodeIntAt(m.offset, 8, k);
    EncodeIntAt(m.size, 8, k);
  }

  lemma EightBytes()
    ensures Pow256(8) == TWO_64
  {
    assert Pow256(4) == 0x1_0000_0000;
    assert Pow256(6) == 65536 * Pow256(4);
    assert Pow256(8) == 65536 * Pow256(6);
  }

  lemma MessageRoundTrip(m: FDMessage)
    requires Encodable(m)
    ensures Decode(Encode(m)) == m
  {
    EightBytes();
    IntRoundTrip(m.captureTimestamp, 8);
    IntRoundTrip(m.offset, 8);
    IntRoundTrip(m.size, 8);
    var s := Encode(m);
    assert s[..8] == EncodeInt(m.captureTimestamp, 8);
    assert s[8..16] == EncodeInt(m.offset, 8);
    assert s[16..] == EncodeInt(m.size, 8);
  }

  // ---- Buffers and files ----

  /** A memory of a media buffer: part of a file, or plain bytes. */
  datatype Memory = FileMem(file: seq<byte>, window: Window) | PlainMem(bytes: seq<byte>)

  /** A file memory shows a part that is there. */
  predicate Shows(m: Memory) { m.FileMem? ==> Fits(m.window, |m.file|) }

  function Contents(m: Memory): seq<byte>
    requires Shows(m)
  {
    match m
    case FileMem(file, window) => Exposed(file, window)
    case PlainMem(bytes) => bytes
  }

  function AllContents(ms: seq<Memory>): seq<byte>
    requires forall i :: 0 <= i < |ms| ==> Shows(ms[i])
  {
    if ms == [] then [] else Contents(ms[0]) + AllContents(ms[1..])
  }

  /** A media buffer: its memories, and the files each of its control messages carries. */
  class MediaBuffer {
    var memories: seq<Memory>
    var messages: seq<seq<seq<byte>>>

    ghost predicate Valid()
      reads this
    {
      forall i :: 0 <= i < |memories| ==> Shows(memories[i])
    }

    ghost function Bytes(): seq<byte>
      reads this
      requires Valid()
    {
      AllContents(memories)
    }

    constructor (memories: seq<Memory>, messages: seq<seq<seq<byte>>>)
      ensures this.memories == memories && this.messages == messages
    {
      this.memories, this.messages := memories, messages;
    }

    /** All bytes in one piece, as a mapping of the whole buffer shows them. */
    method Merged() returns (bytes: seq<byte>)
      requires Valid()
      ensures bytes == Bytes()
    {
      bytes := [];
      var i := |memories|;
      assert memories[i..] == [];
      while i > 0
        invariant 0 <= i <= |memories| && bytes == AllContents(memories[i..])
      {
        i := i - 1;
        assert memories[i..][1..] == memories[i + 1..];
        bytes := Contents(memories[i]) + bytes;
      }
      assert memories[0..] == memories;
    }
  }

  // ---- The allocator ----

  const PAGE_ALIGN: nat := 4095

  function Pad(off: nat, align: nat): nat { (off + align) / (align + 1) * (align + 1) }

  /** `Pad` is the least multiple of `align + 1` that is not below its argument. */
  lemma PadIsLeast(off: nat, align: nat)
    ensures Pad(off, align) % (align + 1) == 0
    ensures off <= Pad(off, align) < off + align + 1
    ensures forall n: nat {:trigger n * (align + 1)} :: off <= n * (align + 1) ==> Pad(off, align) <= n * (align + 1)
  {
    var d := align + 1;
    var q := (off + align) / d;
    assert off + align == q * d + (off + align) % d;
    MultipleHasNoRest(q, d);
    forall n: nat {:trigger n * (align + 1)} | off <= n * (align + 1)
      ensures Pad(off, align) <= n * (align + 1)
    {
      if n < q {
        assert n * d + d == (n + 1) * d;
        NotBelow(n + 1, q, d);
      } else {
        NotBelow(q, n, d);
      }
    }
  }

  lemma MultipleHasNoRest(q: nat, d: nat)
    requires d > 0
    ensures q * d % d == 0
  {
    var k, rest := q * d / d, q * d % d;
    assert q * d == k * d + rest;
    if k < q {
      NotBelow(k + 1, q, d);
    } else {
      NotBelow(q, k, d);
    }
  }

  lemma NotBelow(a: nat, b: nat, d: nat)
    requires a <= b
    ensures a * d <= b * d
  {
  }

  /** What the system answers to a write: bytes taken, an interruption, or an error. */
  datatype WriteAnswer = Took(n: nat) | Interrupted | Failed

  class TmpFileAllocator {
    var frameCount: nat

    constructor ()
      ensures frameCount == 0
    {
      frameCount := 0;
    }

    /** Makes a new empty file, under a name that counts the frames. */
    method Create(made: bool) returns (fd: bool)
      modifies this
      ensures frameCount == old(frameCount) + 1 && fd == made
    {
      frameCount := frameCount + 1;
      fd := made;
    }

    /** A memory of `size` bytes behind `prefix`, in a file of whole pages. */
    method Alloc(size: nat, prefix: nat, align: nat, padding: nat, made: bool, resized: bool)
      returns (mem: Option<Memory>)
      modifies this
      ensures mem != None <==> made && resized
      ensures mem != None ==>
                && mem.value.FileMem? && Shows(mem.value)
                && mem.value.window == Window(Pad(prefix, align), size)
                && |mem.value.file| == Pad(size + Pad(prefix, align) + padding, PAGE_ALIGN)
                && mem.value.window.offset + size + padding <= |mem.value.file|
    {
      var maxsize := Pad(size + Pad(prefix, align) + padding, PAGE_ALIGN);
      PadIsLeast(size + Pad(prefix, align) + padding, PAGE_ALIGN);
      var fd := Create(made);
      if !fd || !resized {
        return None;
      }
      return Some(FileMem(seq(maxsize, _ => 0 as byte), Window(Pad(prefix, align), size)));
    }

    /** A memory in a new file that holds a copy of `data`, written piece by piece. Answers beyond the last are
        errors. */
    method CopyAlloc(data: seq<byte>, made: bool, answers: seq<WriteAnswer>) returns (mem: Option<Memory>)
      modifies this
      ensures mem != None ==> mem.value == FileMem(data, Window(0, |data|)) && Shows(mem.value)
      ensures mem == None <==> !made || !Completes(|data|, answers)
    {
      var fd := Create(made);
      if !fd {
        return None;
      }
      var file: seq<byte>, off, k := [], 0, 0;
      assert answers[0..] == answers;
      while off < |data|
        invariant 0 <= off <= |data| && 0 <= k <= |answers| && file == data[..off]
        invariant Completes(|data| - off, answers[k..]) == Completes(|data|, answers)
        decreases |answers| - k
      {
        if k == |answers| {
          return None;
        }
        assert answers[k..][1..] == answers[k + 1..];
        match answers[k] {
          case Failed =>
            return None;
          case Interrupted =>
          case Took(n) =>
            var w := Min(n, |data| - off);
            file := file + data[off..off + w];
            off := off + w;
        }
        k := k + 1;
      }
      assert data[..off] == data;
      return Some(FileMem(file, Window(0, |data|)));
    }
  }

  /** The answers let `n` bytes be written before one of them is an error. */
  predicate Completes(n: nat, answers: seq<WriteAnswer>) {
    n == 0 || (answers != [] && !answers[0].Failed? &&
               Completes(if answers[0].Took? then n - Min(answers[0].n, n) else n, answers[1..]))
  }

  // ---- Payloading and depayloading ----

  /** `Crash`: a missing memory is used without a check. */
  datatype Flow = FlowOk | FlowError | Crash

  /** A buffer of one file memory needs no copy. */
  predicate NeedsNoCopy(ms: seq<Memory>) { |ms| == 1 && ms[0].FileMem? }

  /** A file memory can be had: the buffer needs no copy, or it can be read, the file made and all bytes written. */
  predicate Payloads(ms: seq<Memory>, size: nat, mapped: bool, made: bool, answers: seq<WriteAnswer>) {
    NeedsNoCopy(ms) || (mapped && made && Completes(size, answers))
  }

  /** The file memory that stands for the memories of a buffer: the only one, or a copy of all of them. */
  function Payloaded(ms: seq<Memory>): (m: Memory)
    requires forall i :: 0 <= i < |ms| ==> Shows(ms[i])
    ensures m.FileMem? && Shows(m) && Contents(m) == AllContents(ms)
  {
    if NeedsNoCopy(ms) then
      assert AllContents(ms[1..]) == [];
      ms[0]
    else FileMem(AllContents(ms), Window(0, |AllContents(ms)|))
  }

  /** What is sent for a file memory. */
  function MessageFor(m: Memory, timestamp: nat): FDMessage
    requires m.FileMem? && Shows(m)
  {
    FDMessage(timestamp, m.window.offset, m.window.size)
  }

  class FdPay {
    const allocator: TmpFileAllocator

    constructor (allocator: TmpFileAllocator)
      ensures this.allocator == allocator
    {
      this.allocator := allocator;
    }

    /** The buffer's bytes as part of a file: its own if it has one, else a copy. `mapped`: the buffer can be read. */
    method GetFdMemory(buf: MediaBuffer, mapped: bool, made: bool, answers: seq<WriteAnswer>)
      returns (mem: Option<Memory>)
      requires buf.Valid()
      modifies allocator
      ensures mem == None <==> !Payloads(buf.memories, |buf.Bytes()|, mapped, made, answers)
      ensures mem != None ==> mem.value == Payloaded(buf.memories)
    {
      if |buf.memories| == 1 && buf.memories[0].FileMem? {
        return Some(buf.memories[0]);
      }
      if !mapped {
        return None;
      }
      var bytes := buf.Merged();
      mem := allocator.CopyAlloc(bytes, made, answers);
    }

    /** Replaces the memories of the buffer by the message, and attaches the file. */
    method TransformIp(buf: MediaBuffer, timestamp: nat, mapped: bool, made: bool, answers: seq<WriteAnswer>,
                       attached: bool)
      returns (ret: Flow)
      requires buf.Valid()
      modifies buf, allocator
      ensures buf.Valid()
      ensures ret == Crash <==> old(!Payloads(buf.memories, |buf.Bytes()|, mapped, made, answers))
      ensures ret == FlowError <==> ret != Crash && !attached
      ensures ret != FlowOk ==> buf.memories == [] && buf.messages == old(buf.messages)
      ensures ret == FlowOk ==>
                var m := Payloaded(old(buf.memories));
                && buf.messages == old(buf.messages) + [[m.file]]
                && buf.memories == [PlainMem(Encode(MessageFor(m, timestamp)))]
    {
      var fdmem := GetFdMemory(buf, mapped, made, answers);
      buf.memories := [];
      if fdmem == None {
        return Crash;
      }
      var file, w := fdmem.value.file, fdmem.value.window;
      var msg := FDMessage(timestamp, w.offset, w.size);
      if !attached {
        return FlowError;
      }
      buf.messages := buf.messages + [[file]];
      buf.memories := [PlainMem(Encode(msg))];
      return FlowOk;
    }
  }

  /** Whether the received file is long enough, as 64-bit arithmetic computes it. */
  predicate LongEnough(file: seq<byte>, m: FDMessage) { |file| >= (m.offset + m.size) % TWO_64 }

  class FdDepay {
    constructor () {
    }

    /** Replaces the message by the part of the file it names. `duplicated`, `statted`: the system calls succeed. */
    method TransformIp(buf: MediaBuffer, duplicated: bool, statted: bool) returns (ret: Flow)
      requires buf.Valid()
      modifies buf
      ensures var bytes := old(buf.Bytes());
              ret == FlowOk <==>
                && |bytes| == MESSAGE_SIZE && old(buf.messages) != [] && |old(buf.messages)[0]| == 1
                && duplicated && statted && LongEnough(old(buf.messages)[0][0], Decode(bytes))
      ensures ret == FlowOk || ret == FlowError
      ensures ret == FlowOk ==>
                var m := Decode(old(buf.Bytes()));
                && buf.memories == [FileMem(old(buf.messages)[0][0], Window(m.offset, m.size))]
                && buf.messages == old(buf.messages)[1..]
      ensures ret == FlowError ==> buf.memories == old(buf.memories) && buf.messages == old(buf.messages)
    {
      var bytes := buf.Merged();
      if |bytes| != MESSAGE_SIZE {
        return FlowError;
      }
      var msg := Decode(bytes);
      if buf.messages == [] || |buf.messages[0]| != 1 {
        return FlowError;
      }
      var file := buf.messages[0][0];
      if !duplicated {
        return FlowError;
      }
      if !statted {
        return FlowError;
      }
      if |file| < (msg.offset + msg.size) % TWO_64 {
        return FlowError;
      }
      buf.memories := [FileMem(file, Window(msg.offset, msg.size))];
      buf.messages := buf.messages[1..];
      return FlowOk;
    }
  }

  /** The check accepts exactly the windows inside the file, if and only if the end of the window does not wrap around,
      or wraps to a length the file does not have. */
  lemma LengthCheckIsExactIff(file: seq<byte>, m: FDMessage)
    requires Encodable(m) && |file| < TWO_64
    ensures (LongEnough(file, m) <==> Fits(Window(m.offset, m.size), |file|))
            <==> m.offset + m.size < TWO_64 || |file| < m.offset + m.size - TWO_64
  {
    var end := m.offset + m.size;
    if end >= TWO_64 {
      assert end % TWO_64 == end - TWO_64;
    }
  }

  /** A window of one byte at the last offset there is ends at 0 in 64 bits: every file is long enough for it. */
  lemma WrappedWindowIsAccepted(file: seq<byte>)
    requires |file| < TWO_64
    ensures var m := FDMessage(0, TWO_64 - 1, 1);
            Encodable(m) && LongEnough(file, m) && !Fits(Window(m.offset, m.size), |file|)
  {
  }

  /** A message whose end does not wrap around is accepted exactly when its window lies inside the file. */
  lemma AcceptedIffInside(file: seq<byte>, m: FDMessage)
    requires m.offset + m.size < TWO_64
    ensures LongEnough(file, m) <==> Fits(Window(m.offset, m.size), |file|)
  {
  }

  /** The message for a buffer is accepted with its file, and names a part that shows the bytes of the buffer. */
  lemma WindowRoundTrip(ms: seq<Memory>, timestamp: nat)
    requires forall i :: 0 <= i < |ms| ==> Shows(ms[i])
    requires timestamp < TWO_64 && |Payloaded(ms).file| < TWO_64
    ensures var m := Payloaded(ms);
            var msg := Decode(Encode(MessageFor(m, timestamp)));
            && msg.captureTimestamp == timestamp && LongEnough(m.file, msg)
            && Fits(Window(msg.offset, msg.size), |m.file|)
            && Exposed(m.file, Window(msg.offset, msg.size)) == AllContents(ms)
  {
    MessageRoundTrip(MessageFor(Payloaded(ms), timestamp));
  }

  /** The file that a receiver finds in the first control message, in front of the one the payloader adds. */
  function FilesFound(messages: seq<seq<seq<byte>>>, file: seq<byte>): seq<seq<byte>> {
    if messages == [] then [file] else messages[0]
  }

  /** It is one file, long enough for the part that is sent. */
  predicate Reaches(messages: seq<seq<seq<byte>>>, m: Memory)
    requires m.FileMem?
  {
    |FilesFound(messages, m.file)| == 1 && Fits(m.window, |FilesFound(messages, m.file)[0]|)
  }

  /** Payloading a buffer and depayloading what comes out, whatever its memories are and however the copy, if there is
      one, is written. Without control messages the bytes of the buffer come out; with some they do exactly if the first
      carries one file that shows the same bytes in the same place, since this is the file the receiver takes. */
  method RoundTrip(pay: FdPay, depay: FdDepay, buf: MediaBuffer, timestamp: nat, mapped: bool, made: bool,
                   answers: seq<WriteAnswer>)
    returns (sent: Flow, received: Flow)
    requires buf.Valid() && timestamp < TWO_64 && |Payloaded(buf.memories).file| < TWO_64
    modifies buf, pay.allocator
    ensures buf.Valid() && (sent != FlowOk ==> received == FlowError)
    ensures sent == FlowOk <==> old(Payloads(buf.memories, |buf.Bytes()|, mapped, made, answers))
    ensures received == FlowOk <==> sent == FlowOk && old(Reaches(buf.messages, Payloaded(buf.memories)))
    ensures received == FlowOk ==>
              var m := Payloaded(old(buf.memories));
              && buf.Bytes() == Exposed(FilesFound(old(buf.messages), m.file)[0], m.window)
              && buf.messages == (old(buf.messages) + [[m.file]])[1..]
    ensures sent == FlowOk && old(buf.messages) == [] ==>
              received == FlowOk && buf.Bytes() == old(buf.Bytes()) && buf.messages == []
  {
    WindowRoundTrip(buf.memories, timestamp);
    MessageRoundTrip(MessageFor(Payloaded(buf.memories), timestamp));
    sent := pay.TransformIp(buf, timestamp, mapped, made, answers, true);
    if sent != FlowOk {
      return sent, FlowError;
    }
    OneMemory(buf.memories[0]);
    received := depay.TransformIp(buf, true, true);
    OneMemory(buf.memories[0]);
  }

  lemma OneMemory(m: Memory)
    requires Shows(m)
    ensures AllContents([m]) == Contents(m)
  {
    assert AllContents([m]) == Contents(m) + AllContents([]);
  }
}
