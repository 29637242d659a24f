/** The syslog backend: one datagram per record, no waiting, and reconnection that is
    limited by a clock which may fail or run backwards. */
module Syslog {
  import opened Options
  import opened Counters
  import Bits

  type Bytes = string

  const EINTR: int := 4
  const EIO: int := 5
  const EINVAL: int := 22
  const EPIPE: int := 32
  const ENOENT: int := 2
  const EMSGSIZE: int := 90
  const EDESTADDRREQ: int := 89
  const ECONNRESET: int := 104
  const ENOTCONN: int := 107
  const ECONNREFUSED: int := 111
  const EOVERFLOW: int := 75

  const SEND_ATTEMPTS: nat := 4
  const PACKET_MAX: nat := 8192
  const OFF: nat := 6

  predicate BrokenAssociation(error: int) {
    error == ECONNREFUSED || error == ECONNRESET || error == ENOTCONN || error == EPIPE || error == ENOENT ||
    error == EDESTADDRREQ || error == EIO
  }

  // ---- Priority ------------------------------------------------------------------------

  /** Severity of a level below OFF. */
  function Severity(level: nat): (r: nat)
    requires level < OFF
    ensures r < 8
  {
    [7, 7, 6, 4, 3, 2][level]
  }

  /** `facility | severity` */
  function Priority(facility: bv8, severity: bv8): bv8 {
    facility | severity
  }

  /** Facilities are multiples of eight up to 184, as the configuration check demands. */
  predicate FacilityOk(facility: bv8) {
    facility & 7 == 0 && facility <= 184
  }

  /** The value is facility plus severity, as section 4.1.1 of RFC 3164 defines it: both
      can be read back, it is below 192 and so has at most three digits. */
  lemma PriorityIsSum(facility: bv8, severity: bv8)
    requires FacilityOk(facility) && severity < 8
    ensures Priority(facility, severity) == facility + severity
    ensures (Priority(facility, severity) as nat) == (facility as nat) + (severity as nat) < 192
    ensures Priority(facility, severity) & 248 == facility && Priority(facility, severity) & 7 == severity
  {
  }

  function Decimal(n: nat): Bytes {
    if n < 10 then ["0123456789"[n]] else Decimal(n / 10) + ["0123456789"[n % 10]]
  }

  function Prefix(facility: bv8, level: nat, ident: Bytes, pid: nat): Bytes
    requires level < OFF
  {
    "<" + Decimal(Priority(facility, Severity(level) as bv8) as nat) + ">" + ident + "[" + Decimal(pid) + "]: "
  }

  function WithoutNewline(line: Bytes): Bytes {
    if line != [] && line[|line| - 1] == '\n' then line[..|line| - 1] else line
  }

  // ---- Time ------------------------------------------------------------------------------

  /** `logger_monotonic_ms_before` and `logger_monotonic_ms_elapsed`. */
  predicate TimeBefore(left: nat, right: nat) {
    left < right
  }

  predicate Elapsed(now: nat, since: nat, interval: nat) {
    now >= since && now - since >= interval
  }

  /** Some reading at or after reading `a`, and before reading `b`, is at least the
      interval earlier than reading `b`. */
  ghost predicate Cooled(readings: seq<nat>, a: nat, b: nat, interval: nat) {
    b < |readings| && exists k :: a <= k < b && readings[k] + interval <= readings[b]
  }

  /** `attempts` gives, for every connection attempt, the reading it was based on. */
  ghost predicate RateLimited(readings: seq<nat>, attempts: seq<nat>, interval: nat) {
    && (forall i :: 0 <= i < |attempts| ==> attempts[i] < |readings|)
    && (forall i :: 0 < i < |attempts| ==> Cooled(readings, attempts[i - 1], attempts[i], interval))
  }

  ghost predicate Monotone(readings: seq<nat>) {
    forall i, j :: 0 <= i <= j < |readings| ==> readings[i] <= readings[j]
  }

  /** On a clock that does not run backwards, attempts are an interval apart. */
  lemma AttemptsApart(readings: seq<nat>, attempts: seq<nat>, interval: nat, i: nat, j: nat)
    requires RateLimited(readings, attempts, interval) && Monotone(readings) && i < j < |attempts|
    ensures attempts[i] < |readings| && attempts[j] < |readings|
    ensures readings[attempts[i]] + (j - i) * interval <= readings[attempts[j]]
    decreases j - i
  {
    assert Cooled(readings, attempts[j - 1], attempts[j], interval);
    if i < j - 1 { AttemptsApart(readings, attempts, interval, i, j - 1); }
    assert (j - i) * interval == (j - 1 - i) * interval + interval;
  }

  lemma ReadingsGrow(readings: seq<nat>, attempts: seq<nat>, interval: nat, r: nat)
    requires RateLimited(readings, attempts, interval)
    ensures RateLimited(readings + [r], attempts, interval)
  {
    forall i | 0 < i < |attempts| ensures Cooled(readings + [r], attempts[i - 1], attempts[i], interval) {
      assert Cooled(readings, attempts[i - 1], attempts[i], interval);
      var k :| attempts[i - 1] <= k < attempts[i] && readings[k] + interval <= readings[attempts[i]];
      assert (readings + [r])[k] + interval <= (readings + [r])[attempts[i]];
    }
  }

  // ---- The backend -----------------------------------------------------------------------

  datatype Sent = Took(n: nat) | Error(errno: nat)

  /** The answers of the outside world to one write. A clock that answers None fails. */
  datatype World = World(
    pid: nat, printError: nat, clock: Option<nat>, connect: nat, sends: nat -> Sent, later: Option<nat>)

  /** What the socket saw. */
  datatype Trace = Trace(sends: nat, delivered: seq<Bytes>)

  /** The datagram of a record, or the error that prevents it. */
  datatype Packed = Packet(bytes: Bytes) | Refused(error: int)

  function Pack(facility: bv8, ident: Bytes, level: nat, line: Option<Bytes>, w: World): Packed {
    if line.None? || level >= OFF then Refused(EINVAL)
    else if |line.value| > PACKET_MAX then Refused(EMSGSIZE)
    else if w.printError != 0 then Refused(w.printError)
    else
      var prefix, text := Prefix(facility, level, ident, w.pid), WithoutNewline(line.value);
      if |prefix| >= PACKET_MAX then Refused(EOVERFLOW)
      else if |text| > PACKET_MAX - |prefix| then Refused(EMSGSIZE)
      else Packet(prefix + text)
  }

  /** A packet has the prefix and the line without its newline, and fits its buffer. */
  lemma PackedWhole(facility: bv8, ident: Bytes, level: nat, line: Option<Bytes>, w: World)
    ensures var p := Pack(facility, ident, level, line, w);
            && (p.Packet? ==>
                  && level < OFF && line.Some? && |p.bytes| <= PACKET_MAX
                  && p.bytes == Prefix(facility, level, ident, w.pid) + WithoutNewline(line.value))
            && (p.Refused? ==> p.error != 0)
  {
  }

  class SyslogBackend {
    const facility: bv8
    const ident: Bytes
    const interval: nat
    var hasFd: bool
    var connected: nat
    var retryFrom: nat
    var retryClockPending: bool
    var connectionError: int
    var submitted: nat
    var sent: nat
    var failed: nat
    var connectAttempts: nat
    var sendAttempts: nat

    /** The true numbers of records submitted, sent and failed. */
    ghost var total: nat
    ghost var good: nat
    ghost var bad: nat

    /** All successful clock readings, and the reading behind each connection attempt. */
    ghost var readings: seq<nat>
    ghost var attempts: seq<nat>
    /** The reading from which the present cooling-off period counts. */
    ghost var from: nat

    ghost predicate Timing()
      reads this
    {
      && interval >= 1 && RateLimited(readings, attempts, interval) && attempts != []
      && (!retryClockPending ==> from < |readings| && retryFrom == readings[from] && attempts[|attempts| - 1] <= from)
      && Counts(connectAttempts, |attempts|)
    }

    ghost predicate Valid()
      reads this
    {
      && Timing() && FacilityOk(facility)
      && connected == (if hasFd then 1 else 0) && sendAttempts < Bits.WORD64
      && total == good + bad && Counts(submitted, total) && Counts(sent, good) && Counts(failed, bad)
    }

    /** The stored counters add up as 64-bit numbers. */
    lemma CountersAddUp()
      requires Valid()
      ensures submitted == (sent + failed) % Bits.WORD64
    {
      CountsAdd(sent, good, failed, bad, submitted);
    }

    /** `logger_syslog_init` that reached its first connection attempt at `now`. A
        deferred start leaves the backend without a connection. */
    constructor (facility: bv8, ident: Bytes, interval: nat, now: nat, connect: nat)
      requires FacilityOk(facility) && interval <= 60000
      ensures Valid() && readings == [now] && attempts == [0] && hasFd == (connect == 0)
      ensures total == 0 && good == 0 && bad == 0
    {
      this.facility, this.ident, this.interval := facility, ident, if interval != 0 then interval else 1000;
      hasFd, connected := connect == 0, if connect == 0 then 1 else 0;
      retryFrom, retryClockPending, connectionError := now, false, connect;
      submitted, sent, failed, connectAttempts, sendAttempts := 0, 0, 0, 1, 0;
      readings, attempts, from, total, good, bad := [now], [0], 0, 0, 0, 0;
    }

    /** A reading of the clock during the reconnection check, and what it does to the
        cooling-off period. */
    method Reread(now: nat)
      requires Timing()
      modifies this`retryFrom, this`retryClockPending, this`readings, this`from
      ensures Timing() && !retryClockPending && readings == old(readings) + [now]
      ensures retryFrom == if old(retryClockPending) || TimeBefore(now, old(retryFrom)) then now else old(retryFrom)
    {
      ReadingsGrow(readings, attempts, interval, now);
      readings := readings + [now];
      if retryClockPending || TimeBefore(now, retryFrom) {
        retryFrom := now;
        retryClockPending := false;
        from := |readings| - 1;
      }
    }

    /** One attempt to connect, based on the latest reading. */
    method Connect(now: nat, answer: nat) returns (error: int)
      requires Timing() && !retryClockPending && readings != [] && readings[|readings| - 1] == now
      requires Elapsed(now, retryFrom, interval) && !hasFd
      modifies this`retryFrom, this`hasFd, this`connected, this`connectionError, this`connectAttempts, this`attempts, this`from
      ensures Timing() && hasFd == (error == 0) && (hasFd ==> connected == 1) && (!hasFd ==> connected == old(connected))
      ensures attempts == old(attempts) + [|readings| - 1]
    {
      ghost var here := |readings| - 1;
      assert Cooled(readings, attempts[|attempts| - 1], here, interval) by { assert from < here; }
      retryFrom := now;
      from := here;
      attempts := attempts + [here];
      CountOn(connectAttempts, |attempts| - 1, 1);
      connectAttempts := Plus(connectAttempts, 1);
      connectionError := answer;
      hasFd := answer == 0;
      if hasFd { connected := 1; }
      error := answer;
    }

    /** Sends the packet, again only when interrupted. */
    method SendLoop(packet: Bytes, sends: nat -> Sent) returns (error: int, tr: Trace)
      requires sendAttempts < Bits.WORD64
      modifies this`sendAttempts
      ensures sendAttempts < Bits.WORD64
      ensures 1 <= tr.sends <= SEND_ATTEMPTS && |tr.delivered| == (if error == 0 then 1 else 0)
      ensures error == 0 ==> tr.delivered == [packet] && sends(tr.sends - 1) == Took(|packet|)
      ensures forall k :: 0 <= k < tr.sends - 1 ==> sends(k) == Error(EINTR)
    {
      var i := 0;
      error := EINTR;
      while i < SEND_ATTEMPTS
        invariant 0 <= i <= SEND_ATTEMPTS && error == EINTR && sendAttempts < Bits.WORD64
        invariant forall k :: 0 <= k < i ==> sends(k) == Error(EINTR)
      {
        sendAttempts := Plus(sendAttempts, 1);
        var s := sends(i);
        i := i + 1;
        if s == Took(|packet|) { return 0, Trace(i, [packet]); }
        error := if s.Took? || s.errno == 0 then EIO else s.errno;
        if error != EINTR { return error, Trace(i, []); }
      }
      tr := Trace(i, []);
    }

    /** A lost association: the socket is closed and a new cooling-off period begins, or
        is to begin at the next reading. */
    method Disconnect(error: int, later: Option<nat>)
      requires Timing()
      modifies this`hasFd, this`connected, this`connectionError, this`retryFrom, this`retryClockPending, this`readings, this`from
      ensures Timing() && !hasFd && connected == 0 && connectionError == error
      ensures if later.Some? then readings == old(readings) + [later.value] && retryFrom == later.value && retryClockPending == old(retryClockPending)
              else readings == old(readings) && retryClockPending
    {
      hasFd, connected, connectionError := false, 0, error;
      if later.Some? {
        ReadingsGrow(readings, attempts, interval, later.value);
        readings := readings + [later.value];
        retryFrom := later.value;
        from := |readings| - 1;
      } else {
        retryClockPending := true;
      }
    }

    /** Connects if that is needed and allowed. */
    method Ensure(w: World) returns (error: int)
      requires Timing() && connected == (if hasFd then 1 else 0)
      modifies this`retryFrom, this`retryClockPending, this`hasFd, this`connected, this`connectionError,
               this`connectAttempts, this`readings, this`attempts, this`from
      ensures Timing() && connected == (if hasFd then 1 else 0) && (error == 0 <==> hasFd)
      ensures old(readings) <= readings && old(attempts) <= attempts && |attempts| <= |old(attempts)| + 1
    {
      if hasFd { return 0; }
      if w.clock.None? { return EIO; }
      var now := w.clock.value;
      Reread(now);
      if !Elapsed(now, retryFrom, interval) {
        return if connectionError != 0 then connectionError else ENOTCONN;
      }
      error := Connect(now, w.connect);
    }

    /** The part of a write after the packet is made. */
    method Deliver(packet: Bytes, w: World) returns (error: int, tr: Trace)
      requires Timing() && connected == (if hasFd then 1 else 0) && sendAttempts < Bits.WORD64
      modifies this`retryFrom, this`retryClockPending, this`hasFd, this`connected, this`connectionError,
               this`connectAttempts, this`sendAttempts, this`readings, this`attempts, this`from
      ensures Timing() && connected == (if hasFd then 1 else 0) && sendAttempts < Bits.WORD64
      ensures tr.sends <= SEND_ATTEMPTS && tr.delivered == (if error == 0 then [packet] else [])
      ensures tr.sends > 0 ==> (hasFd <==> error == 0 || !BrokenAssociation(error))
      ensures old(readings) <= readings && old(attempts) <= attempts && |attempts| <= |old(attempts)| + 1
    {
      tr := Trace(0, []);
      error := Ensure(w);
      if error != 0 { return; }
      error, tr := SendLoop(packet, w.sends);
      if error != 0 && BrokenAssociation(error) { Disconnect(error, w.later); }
    }

    /** `logger_syslog_write`; a line of None is the null pointer. At every return each
        submitted record is counted once, as sent or as failed; the record was delivered
        whole and once exactly when the call succeeded. */
    method Write(level: nat, line: Option<Bytes>, w: World) returns (error: int, tr: Trace)
      requires Valid()
      modifies this
      ensures Valid() && tr.sends <= SEND_ATTEMPTS
      ensures total == old(total) + 1
      ensures good == old(good) + (if error == 0 then 1 else 0) && bad == old(bad) + (if error == 0 then 0 else 1)
      ensures error == 0 ==> Pack(facility, ident, level, line, w).Packet?
      ensures tr.delivered == if error == 0 then [Pack(facility, ident, level, line, w).bytes] else []
      ensures tr.sends > 0 ==> (hasFd <==> error == 0 || !BrokenAssociation(error))
      ensures old(readings) <= readings && old(attempts) <= attempts && |attempts| <= |old(attempts)| + 1
    {
      CountOn(submitted, total, 1);
      submitted := Plus(submitted, 1);
      total := total + 1;
      error, tr := PackAndDeliver(level, line, w);
      CountResult(error);
    }

    method PackAndDeliver(level: nat, line: Option<Bytes>, w: World) returns (error: int, tr: Trace)
      requires Timing() && connected == (if hasFd then 1 else 0) && sendAttempts < Bits.WORD64
      modifies this`retryFrom, this`retryClockPending, this`hasFd, this`connected, this`connectionError,
               this`connectAttempts, this`sendAttempts, this`readings, this`attempts, this`from
      ensures Timing() && connected == (if hasFd then 1 else 0) && sendAttempts < Bits.WORD64
      ensures tr.sends <= SEND_ATTEMPTS && (error == 0 ==> Pack(facility, ident, level, line, w).Packet?)
      ensures tr.delivered == if error == 0 then [Pack(facility, ident, level, line, w).bytes] else []
      ensures tr.sends > 0 ==> (hasFd <==> error == 0 || !BrokenAssociation(error))
      ensures old(readings) <= readings && old(attempts) <= attempts && |attempts| <= |old(attempts)| + 1
    {
      var packed := Pack(facility, ident, level, line, w);
      PackedWhole(facility, ident, level, line, w);
      if packed.Refused? { return packed.error, Trace(0, []); }
      error, tr := Deliver(packed.bytes, w);
    }

    /** Counts a record as sent or as failed. */
    method CountResult(error: int)
      requires Counts(sent, good) && Counts(failed, bad)
      modifies this`sent, this`failed, this`good, this`bad
      ensures Counts(sent, good) && Counts(failed, bad)
      ensures good == old(good) + (if error == 0 then 1 else 0) && bad == old(bad) + (if error == 0 then 0 else 1)
    {
      CountOn(sent, good, 1);
      CountOn(failed, bad, 1);
      if error == 0 {
        sent := Plus(sent, 1);
        good := good + 1;
      } else {
        failed := Plus(failed, 1);
        bad := bad + 1;
      }
    }

    /** Any number of writes, with any answers of the clock and the socket. */
    method Run(calls: seq<(nat, Option<Bytes>, World)>) returns (delivered: seq<Bytes>)
      requires Valid()
      modifies this
      ensures Valid() && RateLimited(readings, attempts, interval)
      ensures old(readings) <= readings && old(attempts) <= attempts
      ensures total == old(total) + |calls| && good == old(good) + |delivered|
    {
      delivered := [];
      var k := 0;
      while k < |calls|
        invariant Valid() && old(readings) <= readings && old(attempts) <= attempts
        invariant 0 <= k <= |calls| && total == old(total) + k && good == old(good) + |delivered|
      {
        var error, tr := Write(calls[k].0, calls[k].1, calls[k].2);
        delivered := delivered + tr.delivered;
        k := k + 1;
      }
    }
  }
}
