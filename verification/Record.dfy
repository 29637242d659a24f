/** Log records and their compact form in a queue slot. */
module Record {
  import opened Options

  /** One byte of a C buffer. */
  type Byte = char

  const NUL: Byte := '\0'

  /** A C string, given by the bytes before its terminator. */
  type CString = seq<Byte>

  const MESSAGE_MAX: nat := 4096
  const INLINE_TEXT: nat := 512
  const MODULE_CAP: nat := 128
  const FILE_CAP: nat := 256
  const FUNCTION_CAP: nat := 128
  const TILDE: Byte := '~'
  const SLASH: Byte := '/'

  datatype Time = Time(sec: int, nsec: int)

  /** `struct logger_message`. `text` is the whole buffer; `textLen` is what the
      caller recorded, zero when it must be scanned. */
  datatype Message = Message(
    level: nat, ts: Time, pid: int, tid: int, line: int,
    hasModule: bool, hasContext: bool, hasSource: bool,
    moduleName: Option<CString>, file: Option<CString>, func: Option<CString>,
    requestId: CString, sessionId: CString, traceId: CString,
    textLen: nat, text: seq<Byte>)

  /** `struct logger_queue_record`. */
  datatype QueueRecord = QueueRecord(
    level: nat, ts: Time, pid: int, tid: int, line: int,
    requestId: CString, sessionId: CString, traceId: CString,
    moduleStorage: CString, fileStorage: CString, functionStorage: CString,
    spill: Option<nat>, textLen: nat, inlineText: seq<Byte>)

  /** What the worker holds after a pop. */
  datatype Delivered = Delivered(
    level: nat, ts: Time, pid: int, tid: int, line: int,
    requestId: CString, sessionId: CString, traceId: CString,
    moduleName: CString, file: CString, func: CString, text: seq<Byte>)

  /** Number of bytes before the first zero, or the length of the buffer. */
  function Scan(buffer: seq<Byte>): nat {
    if buffer == [] || buffer[0] == NUL then 0 else 1 + Scan(buffer[1..])
  }

  lemma {:induction false} ScanStops(buffer: seq<Byte>)
    ensures Scan(buffer) <= |buffer|
    ensures Scan(buffer) < |buffer| ==> buffer[Scan(buffer)] == NUL
    ensures forall i :: 0 <= i < Scan(buffer) ==> buffer[i] != NUL
  {
    if buffer != [] && buffer[0] != NUL {
      ScanStops(buffer[1..]);
      assert forall i :: 1 <= i < |buffer| ==> buffer[i] == buffer[1..][i - 1];
    }
  }

  predicate WellFormed(m: Message) {
    |m.text| == MESSAGE_MAX
  }

  /** The recorded length is usable: it points at a terminator and is not the
      "unknown" zero of a non-empty text. */
  predicate LengthRecorded(m: Message)
    requires WellFormed(m)
  {
    (m.textLen != 0 || m.text[0] == NUL) && m.textLen < MESSAGE_MAX && m.text[m.textLen] == NUL
  }

  /** `logger_record_text_length`: MESSAGE_MAX when the text has no terminator. */
  method TextLength(m: Message) returns (n: nat)
    requires WellFormed(m)
    ensures n == TextLengthSpec(m)
  {
    n := m.textLen;
    if LengthRecorded(m) {
      return;
    }
    n := 0;
    while n < MESSAGE_MAX && m.text[n] != NUL
      invariant 0 <= n <= MESSAGE_MAX
      invariant Scan(m.text) == n + Scan(m.text[n..])
    {
      assert m.text[n..][1..] == m.text[n + 1..];
      n := n + 1;
    }
    if n == MESSAGE_MAX {
      assert m.text[n..] == [];
    }
  }

  function TextLengthSpec(m: Message): nat
    requires WellFormed(m)
  {
    if LengthRecorded(m) then m.textLen else Scan(m.text)
  }

  /** The text ends at the computed length; a length equal to the buffer means
      that there is no terminator at all. */
  lemma TextLengthMeaning(m: Message)
    requires WellFormed(m)
    ensures TextLengthSpec(m) <= MESSAGE_MAX
    ensures TextLengthSpec(m) < MESSAGE_MAX ==> m.text[TextLengthSpec(m)] == NUL
    ensures TextLengthSpec(m) == MESSAGE_MAX <==> forall i :: 0 <= i < MESSAGE_MAX ==> m.text[i] != NUL
  {
    ScanStops(m.text);
  }

  /** The text that a caller handed over. */
  function Text(m: Message): seq<Byte>
    requires WellFormed(m)
  {
    TextLengthMeaning(m);
    m.text[..TextLengthSpec(m)]
  }

  /** The part of a source string that fits `cap` bytes with its terminator; the
      last kept byte becomes `~` when anything was cut. */
  function SourceCut(src: CString, cap: nat): (r: CString)
    requires cap >= 1
  {
    if |src| < cap then src
    else if cap == 1 then []
    else src[..cap - 2] + [TILDE]
  }

  /** A cut string fits its buffer and its one-byte length, is a plain copy when
      nothing was lost, and otherwise keeps all but its last byte. */
  lemma SourceCutMeaning(src: CString, cap: nat)
    requires 1 <= cap <= 256
    ensures |SourceCut(src, cap)| < cap && |SourceCut(src, cap)| < 256
    ensures SourceCut(src, cap) == src <==> |src| < cap
    ensures |src| >= cap ==> |SourceCut(src, cap)| == cap - 1
    ensures forall i :: 0 <= i < |SourceCut(src, cap)| - 1 ==> SourceCut(src, cap)[i] == src[i]
    ensures |src| >= cap > 1 ==> SourceCut(src, cap)[cap - 2] == TILDE
  {
  }

  /** `queue_source_copy` into a buffer of `dst.Length` bytes. */
  method SourceCopy(dst: array<Byte>, src: CString) returns (n: nat)
    requires dst.Length >= 1
    modifies dst
    ensures n == |SourceCut(src, dst.Length)|
    ensures dst[..n] == SourceCut(src, dst.Length)
    ensures dst[n] == NUL
    ensures forall i :: n < i < dst.Length ==> dst[i] == old(dst[i])
  {
    n := 0;
    while n + 1 < dst.Length && n < |src|
      invariant 0 <= n <= |src| && n + 1 <= dst.Length
    {
      n := n + 1;
    }
    forall i | 0 <= i < n {
      dst[i] := src[i];
    }
    dst[n] := NUL;
    if n < |src| && n > 0 {
      dst[n - 1] := TILDE;
      assert dst[..n] == src[..n - 1] + [TILDE];
    }
  }

  /** The part of a path after its last slash. */
  function Basename(path: CString): CString {
    if path == [] || path[|path| - 1] == SLASH then []
    else Basename(path[..|path| - 1]) + [path[|path| - 1]]
  }

  lemma SuffixGrows(s: CString, suffix: CString, c: Byte)
    requires |suffix| <= |s| && s[|s| - |suffix|..] == suffix
    ensures (s + [c])[|s| - |suffix|..] == suffix + [c]
    ensures |suffix| < |s| ==> (s + [c])[|s| - |suffix| - 1] == s[|s| - |suffix| - 1]
  {
  }

  /** The base name is the longest suffix without a slash. */
  lemma {:induction false} BasenameMeaning(path: CString)
    ensures |Basename(path)| <= |path|
    ensures path[|path| - |Basename(path)|..] == Basename(path)
    ensures SLASH !in Basename(path)
    ensures |Basename(path)| == |path| || path[|path| - |Basename(path)| - 1] == SLASH
  {
    if path != [] && path[|path| - 1] != SLASH {
      var front, last := path[..|path| - 1], path[|path| - 1];
      BasenameMeaning(front);
      assert path == front + [last];
      SuffixGrows(front, Basename(front), last);
    }
  }

  const APP: CString := "app"
  const UNKNOWN: CString := "?"

  function OrElse(s: Option<CString>, fallback: CString): CString {
    if s.Some? then s.value else fallback
  }

  /** Module, file and function as `queue_copy_source` stores them. */
  function StoredModule(m: Message): CString {
    if m.hasModule then SourceCut(OrElse(m.moduleName, APP), MODULE_CAP) else []
  }

  function StoredFile(m: Message): CString {
    if !m.hasSource then []
    else SourceCut(if m.file.Some? then Basename(m.file.value) else UNKNOWN, FILE_CAP)
  }

  function StoredFunction(m: Message): CString {
    if m.hasSource then SourceCut(OrElse(m.func, UNKNOWN), FUNCTION_CAP) else []
  }

  /** What the worker must receive for a message: everything exact, except the
      source strings, which are cut to their fixed storage. */
  function Expected(m: Message): Delivered
    requires WellFormed(m)
  {
    Delivered(m.level, m.ts, m.pid, m.tid, m.line,
              if m.hasContext then m.requestId else [],
              if m.hasContext then m.sessionId else [],
              if m.hasContext then m.traceId else [],
              StoredModule(m), StoredFile(m), StoredFunction(m), Text(m))
  }

  /** `queue_record_pack`: long texts stay in their spill block. */
  function Pack(m: Message, textLen: nat, spill: Option<nat>): QueueRecord
    requires WellFormed(m) && textLen < MESSAGE_MAX
  {
    QueueRecord(m.level, m.ts, m.pid, m.tid, m.line,
                if m.hasContext then m.requestId else [],
                if m.hasContext then m.sessionId else [],
                if m.hasContext then m.traceId else [],
                StoredModule(m), StoredFile(m), StoredFunction(m),
                spill, textLen, if spill.None? then m.text[..textLen + 1] else [])
  }

  /** `queue_record_unpack`: reads as many bytes as the recorded length says. */
  function Unpack(r: QueueRecord, block: seq<Byte>): Delivered {
    var source := if r.spill.None? then r.inlineText else block;
    var n := if r.textLen <= |source| then r.textLen else |source|;
    Delivered(r.level, r.ts, r.pid, r.tid, r.line,
              r.requestId, r.sessionId, r.traceId,
              r.moduleStorage, r.fileStorage, r.functionStorage, source[..n])
  }

  /** A record that went through a slot, and through a spill block when it is
      long, comes out as expected. */
  lemma PackUnpack(m: Message, spill: Option<nat>, block: seq<Byte>)
    requires WellFormed(m) && TextLengthSpec(m) < MESSAGE_MAX
    requires spill.Some? ==> m.text[..TextLengthSpec(m) + 1] <= block
    ensures Unpack(Pack(m, TextLengthSpec(m), spill), block) == Expected(m)
  {
    var n := TextLengthSpec(m);
    assert m.text[..n + 1][..n] == Text(m) && (spill.Some? ==> block[..n] == block[..n + 1][..n]);
  }
}
