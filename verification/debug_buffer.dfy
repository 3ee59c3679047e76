/** `DebugBuffer` (DebugBuffer.cs): a raw GPU buffer of `MaxDebugLogCount + 1` two-word
    records that shaders append log entries to. Record 0 is the counter: its first word
    is both the `Type` field and `LogCount`, since the two share field offset 0. The
    CPU copy is read back and walked by `ForEach`. What kernels write into the device
    buffer is an input; float values are reported by their bits (float decoding is not
    modelled). */
module DebugBuffer {
  import opened Wrappers
  import opened IntMath

  const MaxDebugLogCount: nat := 128

  /** Records in the device buffer and in its CPU copy. */
  const RecordCount: nat := MaxDebugLogCount + 1

  datatype LogType = IntLog | UIntLog | FloatLog | BoolLog

  /** The enum `LogType` read from a record's first word: an ordinal outside 0..3 names
      no member, and the `switch` then takes no case. */
  function LogTypeOf(head: int): Option<LogType>
  {
    if head == 0 then Some(IntLog)
    else if head == 1 then Some(UIntLog)
    else if head == 2 then Some(FloatLog)
    else if head == 3 then Some(BoolLog)
    else None
  }

  /** One `DebugLog`: word 0 (`Type` / `LogCount`, a signed int) and word 1 (`IntValue`,
      `UIntValue` and `FloatValue` all read these 32 bits). */
  datatype DebugLog = DebugLog(head: Int32, bits: UInt32)

  /** The record `new DebugLog() { LogCount = 0 }`: both words zero. */
  const ZeroLog := DebugLog(0, 0)

  /** The value `ForEach` passes to its action, tagged by the view of word 1 it used. */
  datatype Reported = IntValue(i: int) | UIntValue(u: nat) | FloatBits(bits: nat)

  /** Word 1 read as a C# `int` (two's complement). */
  function SignedBits(bits: UInt32): (r: Int32)
    ensures r >= 0 <==> bits < 0x8000_0000
    ensures (r + UInt32Modulus) % UInt32Modulus == bits
  {
    if bits < 0x8000_0000 then bits else bits - UInt32Modulus
  }

  /** The action call `ForEach` makes for one record, if its type names a case. */
  function ReportOf(log: DebugLog): Option<Reported>
  {
    match LogTypeOf(log.head)
    case Some(IntLog) => Some(IntValue(SignedBits(log.bits)))
    case Some(UIntLog) => Some(UIntValue(log.bits))
    case Some(BoolLog) => Some(UIntValue(log.bits))
    case Some(FloatLog) => Some(FloatBits(log.bits))
    case None => None
  }

  /** The action calls for a run of records, in order. */
  function Reports(logs: seq<DebugLog>): seq<Reported>
  {
    if |logs| == 0 then []
    else
      var rest := Reports(logs[..|logs| - 1]);
      match ReportOf(logs[|logs| - 1])
      case Some(v) => rest + [v]
      case None => rest
  }

  /** The log count `ForEach` uses: the counter word, capped at `MaxDebugLogCount`. */
  function ClampedCount(logData: seq<DebugLog>): (n: int)
    requires |logData| == RecordCount
    ensures n <= MaxDebugLogCount
    ensures n == logData[0].head || (logData[0].head > MaxDebugLogCount && n == MaxDebugLogCount)
  {
    if logData[0].head > MaxDebugLogCount then MaxDebugLogCount else logData[0].head
  }

  /** The device buffer and the CPU array `_logData`, both of `RecordCount` records. */
  datatype Buffer = Buffer(device: seq<DebugLog>, logData: seq<DebugLog>)

  predicate Valid(b: Buffer)
  {
    |b.device| == RecordCount && |b.logData| == RecordCount
  }

  /** `Reset()`: a one-record `SetData` writes the zero record at index 0, so the counter
      reads 0 and, through the shared offset, the counter record's type reads `Int`;
      every other record is kept. */
  function Reset(b: Buffer): (r: Buffer)
    requires Valid(b)
    ensures Valid(r) && r.logData == b.logData
    ensures r.device[0].head == 0 && LogTypeOf(r.device[0].head) == Some(IntLog)
    ensures r.device[1..] == b.device[1..]
  {
    b.(device := b.device[0 := ZeroLog])
  }

  /** The constructor: a device buffer with whatever contents the allocation holds, a
      zeroed CPU array, then `Reset()`. */
  function NewDebugBuffer(initialDevice: seq<DebugLog>): (r: Buffer)
    requires |initialDevice| == RecordCount
    ensures Valid(r) && r.device[0] == ZeroLog && r.device[1..] == initialDevice[1..]
    ensures forall i :: 0 <= i < |r.logData| ==> r.logData[i] == ZeroLog
  {
    Reset(Buffer(initialDevice, seq(RecordCount, _ => ZeroLog)))
  }

  /** `Read()`: the whole device buffer is copied into `_logData`. */
  function Read(b: Buffer): (r: Buffer)
    requires Valid(b)
    ensures Valid(r) && r.logData == b.device && r.device == b.device
  {
    b.(logData := b.device)
  }

  /** `ForEach(action)`: the count is clamped, records `1..count` are visited in index
      order (record 0 is the counter), and each record whose type names a case reports
      one value; `UInt` and `Bool` records both report the unsigned view. The result is
      whether the clamped count is positive, so a negative counter reports nothing and
      returns false. */
  method ForEach(b: Buffer) returns (reported: seq<Reported>, any: bool)
    requires Valid(b)
    ensures any <==> ClampedCount(b.logData) > 0
    ensures ClampedCount(b.logData) <= 0 ==> reported == []
    ensures ClampedCount(b.logData) > 0 ==> reported == Reports(b.logData[1..ClampedCount(b.logData) + 1])
    ensures |reported| <= MaxDebugLogCount
  {
    var count: int := b.logData[0].head;
    if count > MaxDebugLogCount {
      count := MaxDebugLogCount;
    }
    reported := [];
    var i := 0;
    while i < count
      invariant 0 <= i && (count > 0 ==> i <= count)
      invariant count <= 0 ==> i == 0
      invariant reported == Reports(b.logData[1..i + 1])
      invariant |reported| <= i
    {
      // record i + 1: the counter record is skipped
      var log := b.logData[i + 1];
      ghost var run := b.logData[1..i + 2];
      assert |run| == i + 1;
      assert run[..i] == b.logData[1..i + 1];
      assert run[i] == log;
      var call := ReportOf(log);
      if call.Some? {
        reported := reported + [call.value];
      }
      i := i + 1;
    }
    any := count > 0;
  }

  /** After a `Reset` and a `Read` with no kernel run in between, the counter is 0, so
      `ForEach` reports nothing and returns false. */
  lemma ResetThenReadIsEmpty(b: Buffer)
    requires Valid(b)
    ensures ClampedCount(Read(Reset(b)).logData) == 0
  {
  }
}
