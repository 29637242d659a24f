/** One output line: bounded appends into a buffer, a marker over the tail when
    something was cut, and a final newline. */
module LineFormat {
  import R = Record
  import T = Timestamp

  type Bytes = string

  const NUL: char := '\0'
  const LF: char := '\n'
  const MARKER: Bytes := " [truncated]"
  const INT_MAX: nat := 0x7fff_ffff
  const EOVERFLOW: int := 75
  const EILSEQ: int := 84
  const EINVAL: int := 22

  /** What one conversion produces: text, which a single print call can only deliver up
      to INT_MAX bytes, or a failure of the C library. */
  datatype Piece = Printed(text: Bytes) | Failed(errno: nat)

  datatype Line = Line(text: Bytes, truncated: bool)

  datatype Outcome = Ok(line: Line) | Err(error: int)

  predicate Prints(p: Piece) {
    p.Printed? && |p.text| <= INT_MAX
  }

  /** The failure that stops formatting; an overflow does not. */
  predicate Stops(p: Piece) {
    p.Failed? && p.errno != EOVERFLOW
  }

  /** One append, for a buffer that keeps at most `most` bytes of text. */
  function Appended(l: Line, p: Piece, most: nat, strict: bool): Outcome {
    var overflow := if strict then Err(EOVERFLOW) else Ok(l.(truncated := true));
    if |l.text| >= most then overflow
    else if Stops(p) then Err(if p.errno == 0 then EILSEQ else p.errno)
    else if !Prints(p) then overflow
    else if |l.text| + |p.text| <= most then Ok(Line(l.text + p.text, l.truncated))
    else if strict then Err(EOVERFLOW)
    else Ok(Line((l.text + p.text)[..most], true))
  }

  /** All appends in order, up to the first error. */
  function Build(l: Line, pieces: seq<Piece>, most: nat, strict: bool): Outcome
    decreases |pieces|
  {
    if pieces == [] then Ok(l)
    else
      var first := Appended(l, pieces[0], most, strict);
      if first.Err? then first else Build(first.line, pieces[1..], most, strict)
  }

  /** `logger_text_mark_truncated`, for a text that fills its buffer. */
  function Marked(text: Bytes): Bytes {
    if |text| >= |MARKER| then text[..|text| - |MARKER|] + MARKER
    else if |text| >= 1 then text[..|text| - 1] + "~"
    else text
  }

  // ---- The buffer ----------------------------------------------------------------------

  /** `struct line_buffer`; `limit` is the room for text and its terminator. */
  class LineBuffer {
    const out: array<char>
    const limit: nat
    const strict: bool
    var used: nat
    var truncated: bool

    ghost predicate Valid()
      reads this, out
    {
      1 <= limit < out.Length && used < limit
    }

    ghost function Value(): Line
      requires Valid()
      reads this, out
    {
      Line(out[..used], truncated)
    }

    constructor (out: array<char>, strict: bool)
      requires out.Length >= 2
      ensures Valid() && this.out == out && limit == out.Length - 1 && this.strict == strict
      ensures Value() == Line([], false)
    {
      this.out, this.limit, this.strict, used, truncated := out, out.Length - 1, strict, 0, false;
    }

    /** `append` */
    method Append(p: Piece) returns (rc: int)
      requires Valid()
      modifies this`used, this`truncated, out
      ensures Valid() && rc <= 0
      ensures Appended(old(Value()), p, limit - 1, strict) == if rc == 0 then Ok(Value()) else Err(-rc)
    {
      var room := limit - used;
      if used < limit - 1 {
        if Stops(p) { return if p.errno == 0 then -EILSEQ else var e: int := p.errno; -e; }
        if Prints(p) {
          var n := |p.text|;
          Print(p.text, if n < room then n else room - 1);
          if n < room {
            used := used + n;
            return 0;
          }
          used := used + room - 1;
        }
      }
      if strict { return -EOVERFLOW; }
      truncated := true;
      rc := 0;
    }

    /** What the print call stores: some bytes of the text and a terminator. */
    method Print(text: Bytes, count: nat)
      requires Valid() && count <= |text| && used + count < limit
      modifies out
      ensures out[..used + count] == old(out[..used]) + text[..count] && out[used + count] == NUL
    {
      forall i | 0 <= i < count { out[used + i] := text[i]; }
      out[used + count] := NUL;
      assert out[..used] == old(out[..used]);
      assert out[used..used + count] == text[..count];
      assert out[..used + count] == out[..used] + out[used..used + count];
    }
  }

  /** `memcpy` of a string with its terminator. */
  method Copy(out: array<char>, at: nat, text: Bytes)
    requires at + |text| < out.Length
    modifies out
    ensures out[..at + |text|] == old(out[..at]) + text && out[at + |text|] == NUL
    ensures forall i :: at + |text| < i < out.Length ==> out[i] == old(out[i])
  {
    forall i | 0 <= i < |text| { out[at + i] := text[i]; }
    out[at + |text|] := NUL;
    assert out[..at] == old(out[..at]) && out[at..at + |text|] == text;
    assert out[..at + |text|] == out[..at] + out[at..at + |text|];
  }

  /** Marks a text that ends at the end of its room. */
  method MarkTruncated(out: array<char>, capacity: nat)
    requires capacity <= out.Length
    modifies out
    ensures capacity >= 1 ==> out[..capacity - 1] == Marked(old(out[..capacity - 1]))
    ensures forall i :: capacity <= i < out.Length ==> out[i] == old(out[i])
  {
    if capacity >= |MARKER| + 1 {
      var start := capacity - (|MARKER| + 1);
      Copy(out, start, MARKER);
      assert old(out[..capacity - 1])[..start] == old(out[..start]);
    } else if capacity >= 2 {
      out[capacity - 2] := '~';
      out[capacity - 1] := NUL;
      assert out[..capacity - 1] == out[..capacity - 2] + [out[capacity - 2]];
      assert out[..capacity - 2] == old(out[..capacity - 1])[..capacity - 2];
    }
  }

  /** The appends of `format_line`, up to the first error. */
  method AppendAll(line: LineBuffer, pieces: seq<Piece>) returns (rc: int)
    requires line.Valid()
    modifies line`used, line`truncated, line.out
    ensures line.Valid() && rc <= 0
    ensures Build(old(line.Value()), pieces, line.limit - 1, line.strict) == if rc == 0 then Ok(line.Value()) else Err(-rc)
  {
    var i := 0;
    rc := 0;
    ghost var most := line.limit - 1;
    while i < |pieces|
      invariant 0 <= i <= |pieces| && line.Valid() && rc == 0
      invariant Build(old(line.Value()), pieces, most, line.strict) == Build(line.Value(), pieces[i..], most, line.strict)
    {
      assert pieces[i..][1..] == pieces[i + 1..];
      rc := line.Append(pieces[i]);
      if rc != 0 { return; }
      i := i + 1;
    }
    assert pieces[i..] == [];
  }

  /** Marks the text where a full buffer ends, whether or not the text ends there. */
  method MarkLine(line: LineBuffer)
    requires line.Valid() && line.truncated
    modifies line.out
    ensures line.out[..line.used] == Overlaid(old(line.Value()), line.limit - 1)
  {
    ghost var whole, used := line.out[..line.limit - 1], line.used;
    assert line.out[..used] == whole[..used];
    MarkTruncated(line.out, line.limit);
    Front(line.out[..], line.limit - 1, used);
    OverlayOf(whole, used, line.out[..line.limit - 1]);
  }

  lemma Front(s: Bytes, n: nat, k: nat)
    requires k <= n <= |s|
    ensures s[..n][..k] == s[..k]
  {
  }

  lemma OverlayOf(whole: Bytes, used: nat, marked: Bytes)
    requires used <= |whole| && marked == Marked(whole)
    ensures |marked| == |whole| && marked[..used] == Overlaid(Line(whole[..used], true), |whole|)
  {
    assert whole[..used] + whole[used..] == whole;
    RestIsIrrelevant(whole[..used], whole[used..], Blank(|whole| - used));
  }

  /** The end of `format_line`. */
  method FinishLine(line: LineBuffer) returns (length: nat)
    requires line.Valid() && line.limit == line.out.Length - 1
    modifies line.out
    ensures length == old(line.used) + 1 < line.out.Length && line.out[length] == NUL
    ensures line.out[..length] == Finished(old(line.Value()), line.limit - 1)
  {
    if line.truncated { MarkLine(line); }
    EndLine(line.out, line.used);
    length := line.used + 1;
  }

  method EndLine(out: array<char>, used: nat)
    requires used + 1 < out.Length
    modifies out
    ensures out[..used + 1] == old(out[..used]) + [LF] && out[used + 1] == NUL
  {
    out[used] := LF;
    out[used + 1] := NUL;
    assert out[..used] == old(out[..used]);
  }

  /** `format_line`, given the conversions in order. */
  method FormatLine(out: array<char>, pieces: seq<Piece>, strict: bool) returns (rc: int, length: nat)
    modifies out
    ensures rc <= 0 && (rc != 0 ==> length == 0)
    ensures out.Length < 2 ==> length == 0 && (rc == 0 <==> !strict)
    ensures out.Length >= 2 ==>
              var built := Build(Line([], false), pieces, out.Length - 2, strict);
              if rc != 0 then built == Err(-rc)
              else
                && built.Ok? && length == |built.line.text| + 1 < out.Length && out[length] == NUL
                && out[..length] == Finished(built.line, out.Length - 2)
  {
    length := 0;
    if out.Length == 0 { return if strict then -EOVERFLOW else 0, 0; }
    out[0] := NUL;
    if out.Length == 1 { return if strict then -EOVERFLOW else 0, 0; }
    var line := new LineBuffer(out, strict);
    rc := AppendAll(line, pieces);
    if rc != 0 { return; }
    length := FinishLine(line);
  }

  /** The text after marking: the marker lands on it only if the text is long enough. */
  function Overlaid(l: Line, most: nat): Bytes
  {
    if !l.truncated || |l.text| > most then l.text
    else Marked(l.text + Blank(most - |l.text|))[..|l.text|]
  }

  function Blank(n: nat): (b: Bytes)
    ensures |b| == n
  {
    seq(n, _ => ' ')
  }

  function Finished(l: Line, most: nat): Bytes {
    Overlaid(l, most) + [LF]
  }

  lemma RestIsIrrelevant(text: Bytes, a: Bytes, b: Bytes)
    requires |a| == |b|
    ensures |Marked(text + a)| == |text + a| && Marked(text + a)[..|text|] == Marked(text + b)[..|text|]
  {
    var n := |text + a| - |MARKER|;
    if n >= 0 { assert (text + a)[..n][..if n < |text| then n else |text|] == (text + b)[..n][..if n < |text| then n else |text|]; }
  }

  /** `logger_format_line` and `logger_format_line_checked`: after an error the buffer
      holds the empty string, never a part of a line. */
  method Format(out: array<char>, pieces: seq<Piece>, strict: bool) returns (rc: int, length: nat)
    modifies out
    ensures rc <= 0 && (rc != 0 ==> length == 0 && (out.Length > 0 ==> out[0] == NUL))
    ensures out.Length < 2 ==> length == 0 && (rc == 0 <==> !strict)
    ensures out.Length >= 2 ==>
              var built := Build(Line([], false), pieces, out.Length - 2, strict);
              if rc != 0 then built == Err(-rc)
              else
                && built.Ok? && length == |built.line.text| + 1 < out.Length && out[length] == NUL
                && out[..length] == Finished(built.line, out.Length - 2)
  {
    rc, length := FormatLine(out, pieces, strict);
    if rc != 0 && out.Length > 0 { out[0] := NUL; }
  }

  // ---- One truncation ------------------------------------------------------------------

  /** The line that unlimited room would give, and the pieces that reach the buffer. */
  function Ideal(pieces: seq<Piece>): Bytes {
    if pieces == [] then [] else (if pieces[0].Printed? then pieces[0].text else []) + Ideal(pieces[1..])
  }

  /** Every conversion gave some text. */
  predicate AllPrinted(pieces: seq<Piece>) {
    forall i :: 0 <= i < |pieces| ==> pieces[i].Printed? && pieces[i].text != []
  }

  /** No piece too long for one print call starts while the buffer has room. */
  predicate Deliverable(pieces: seq<Piece>, room: nat) {
    pieces == [] || room == 0 ||
    (Prints(pieces[0]) && Deliverable(pieces[1..], if |pieces[0].text| < room then room - |pieces[0].text| else 0))
  }

  function Cut(text: Bytes, most: nat): Line {
    if |text| <= most then Line(text, false) else Line(text[..most], true)
  }

  lemma {:induction false} FullStays(l: Line, pieces: seq<Piece>, most: nat)
    requires |l.text| >= most
    ensures Build(l, pieces, most, false) == Ok(if pieces == [] then l else l.(truncated := true))
    decreases |pieces|
  {
    if pieces != [] { FullStays(l.(truncated := true), pieces[1..], most); }
  }

  lemma {:induction false} IdealGrows(pieces: seq<Piece>)
    requires AllPrinted(pieces)
    ensures pieces != [] <==> Ideal(pieces) != []
  {
  }

  /** The ordinary form: the bounded appends give the ideal line cut once. */
  lemma {:induction false} OneTruncation(l: Line, pieces: seq<Piece>, most: nat)
    requires AllPrinted(pieces) && !l.truncated && |l.text| <= most && Deliverable(pieces, most - |l.text|)
    ensures Build(l, pieces, most, false) == Ok(Cut(l.text + Ideal(pieces), most))
    decreases |pieces|
  {
    if pieces == [] {
      assert l.text + [] == l.text;
    } else {
      IdealGrows(pieces);
      var p, rest := pieces[0].text, pieces[1..];
      assert AllPrinted(rest) by { assert forall i :: 0 <= i < |rest| ==> rest[i] == pieces[i + 1]; }
      if |l.text| == most {
        FullStays(l, pieces, most);
        assert (l.text + Ideal(pieces))[..most] == l.text;
      } else if |l.text| + |p| <= most {
        OneTruncation(Line(l.text + p, false), rest, most);
        assert (l.text + p) + Ideal(rest) == l.text + Ideal(pieces);
      } else {
        FullStays(Line((l.text + p)[..most], true), rest, most);
        assert (l.text + Ideal(pieces))[..most] == (l.text + p)[..most];
      }
    }
  }

  /** The strict form: the whole line, or an error exactly when something does not fit. */
  lemma {:induction false} StrictIsWhole(l: Line, pieces: seq<Piece>, most: nat)
    requires AllPrinted(pieces) && !l.truncated && |l.text| <= most
    ensures var fits := |l.text + Ideal(pieces)| <= most && forall i :: 0 <= i < |pieces| ==> Prints(pieces[i]);
            Build(l, pieces, most, true) == if fits then Ok(Line(l.text + Ideal(pieces), false)) else Err(EOVERFLOW)
    decreases |pieces|
  {
    if pieces == [] {
      assert l.text + [] == l.text;
    } else {
      IdealGrows(pieces);
      var p, rest := pieces[0].text, pieces[1..];
      assert forall i :: 0 <= i < |rest| ==> rest[i] == pieces[i + 1];
      if |l.text| < most && Prints(pieces[0]) && |l.text| + |p| <= most {
        StrictIsWhole(Line(l.text + p, false), rest, most);
        assert (l.text + p) + Ideal(rest) == l.text + Ideal(pieces);
        assert forall i :: 0 < i < |pieces| ==> pieces[i] == rest[i - 1];
      }
    }
  }

  /** What the caller of the ordinary form gets: the full line, or its first bytes with
      the marker over the tail, and a newline. */
  lemma OrdinaryLine(pieces: seq<Piece>, cap: nat)
    requires cap >= 2 && AllPrinted(pieces) && Deliverable(pieces, cap - 2)
    ensures var built := Build(Line([], false), pieces, cap - 2, false);
            && built.Ok?
            && Finished(built.line, cap - 2) ==
               (if |Ideal(pieces)| <= cap - 2 then Ideal(pieces) else Marked(Ideal(pieces)[..cap - 2])) + [LF]
  {
    OneTruncation(Line([], false), pieces, cap - 2);
    assert [] + Ideal(pieces) == Ideal(pieces);
    var cut := Ideal(pieces)[..if |Ideal(pieces)| <= cap - 2 then |Ideal(pieces)| else cap - 2];
    assert cut + Blank(0) == cut;
    RestIsIrrelevant(cut, [], []);
    assert Marked(cut)[..|cut|] == Marked(cut) by { assert cut + [] == cut; }
  }

  // ---- Pieces too long for one print call ------------------------------------------------

  /** The pieces that one print call can deliver. */
  function Delivered(pieces: seq<Piece>): seq<Piece> {
    if pieces == [] then []
    else if Prints(pieces[0]) then [pieces[0]] + Delivered(pieces[1..])
    else Delivered(pieces[1..])
  }

  predicate AllDeliverable(pieces: seq<Piece>) {
    forall i :: 0 <= i < |pieces| ==> Prints(pieces[i])
  }

  /** The ordinary form for all texts: a piece that is too long for one print call is
      left out, what follows takes its place, and the line counts as truncated. */
  lemma {:induction false} LongPiecesVanish(l: Line, pieces: seq<Piece>, most: nat)
    requires AllPrinted(pieces) && |l.text| <= most
    ensures var kept := Cut(l.text + Ideal(Delivered(pieces)), most);
            Build(l, pieces, most, false) == Ok(Line(kept.text, l.truncated || kept.truncated || !AllDeliverable(pieces)))
    decreases |pieces|
  {
    if pieces == [] {
      assert l.text + [] == l.text;
    } else {
      var p, rest := pieces[0], pieces[1..];
      assert forall i :: 0 <= i < |rest| ==> rest[i] == pieces[i + 1];
      assert AllDeliverable(pieces) <==> Prints(p) && AllDeliverable(rest) by {
        assert forall i :: 0 < i < |pieces| ==> pieces[i] == rest[i - 1];
      }
      var first := Appended(l, p, most, false).line;
      LongPiecesVanish(first, rest, most);
      DeliveredStep(pieces);
      CutStep(l.text, if Prints(p) then p.text else [], Ideal(Delivered(rest)), most);
    }
  }

  lemma DeliveredStep(pieces: seq<Piece>)
    requires pieces != [] && pieces[0].Printed?
    ensures Ideal(Delivered(pieces)) == (if Prints(pieces[0]) then pieces[0].text else []) + Ideal(Delivered(pieces[1..]))
  {
    if Prints(pieces[0]) { assert Delivered(pieces)[1..] == Delivered(pieces[1..]); }
  }

  /** Cutting after an append is cutting once. */
  lemma CutStep(text: Bytes, p: Bytes, tail: Bytes, most: nat)
    requires |text| <= most
    ensures var now := Cut(text + p, most);
            && Cut(text + (p + tail), most).text == Cut(now.text + tail, most).text
            && (Cut(text + (p + tail), most).truncated <==> now.truncated || Cut(now.text + tail, most).truncated)
    ensures |text| == most ==> Cut(text + p, most).text == text
  {
    var all := text + (p + tail);
    assert all == (text + p) + tail;
    if |text + p| > most { assert all[..most] == (text + p)[..most] == ((text + p)[..most] + tail)[..most]; }
  }

  /** With such a piece in the line, the newline stands at the end of the buffer, after
      the marker, exactly when the other pieces fill it. */
  lemma MarkerInPlace(pieces: seq<Piece>, cap: nat)
    requires cap >= 2 && AllPrinted(pieces) && !AllDeliverable(pieces)
    ensures var built := Build(Line([], false), pieces, cap - 2, false);
            && built.Ok? && built.line.truncated
            && (|Finished(built.line, cap - 2)| == cap - 1 <==> |Ideal(Delivered(pieces))| >= cap - 2)
  {
    LongPiecesVanish(Line([], false), pieces, cap - 2);
    var kept := Ideal(Delivered(pieces));
    assert [] + kept == kept;
    var text := Cut(kept, cap - 2).text;
    RestIsIrrelevant(text, Blank(cap - 2 - |text|), Blank(cap - 2 - |text|));
  }

  /** A module name longer than INT_MAX between two short pieces: the line comes out
      complete with a newline, but without the name and without a mark. */
  lemma LongNameIsLost(cap: nat)
    requires cap >= 20
    ensures var pieces := [Printed("a"), Printed(seq(INT_MAX + 1, _ => 'm')), Printed(" b")];
            var built := Build(Line([], false), pieces, cap - 2, false);
            && AllPrinted(pieces) && built == Ok(Line("a b", true)) && Finished(built.line, cap - 2) == "a b\n"
  {
    var name: Bytes := seq(INT_MAX + 1, _ => 'm');
    var pieces := [Printed("a"), Printed(name), Printed(" b")];
    assert |name| == INT_MAX + 1;
    var rest := pieces[1..];
    assert rest == [Printed(name), Printed(" b")] && rest[1..] == [Printed(" b")] && rest[1..][1..] == [];
    assert [] + "a" == "a" && "a" + " b" == "a b";
    var l1, l2, l3 := Line("a", false), Line("a", true), Line("a b", true);
    assert Appended(l2, Printed(" b"), cap - 2, false) == Ok(l3);
    assert Build(l2, rest[1..], cap - 2, false) == Build(l3, [], cap - 2, false) == Ok(l3);
    assert Appended(l1, Printed(name), cap - 2, false) == Ok(l2);
    assert Build(l1, rest, cap - 2, false) == Ok(l3);
    assert Appended(Line([], false), Printed("a"), cap - 2, false) == Ok(l1);
    var text: Bytes := "a b";
    var whole := text + Blank(cap - 2 - 3);
    assert Marked(whole)[..3] == whole[..3] == text;
  }

  // ---- The pieces of a record --------------------------------------------------------------

  datatype Detail = Minimal | Normal | Verbose | Debug

  datatype Settings = Settings(detail: Detail, pid: bool, tid: bool, source: bool)

  function LevelName(level: nat): Bytes {
    if level <= 6 then ["TRACE", "DEBUG", "INFO", "WARN", "ERROR", "FATAL", "OFF"][level] else "UNKNOWN"
  }

  function Digits(n: nat): Bytes {
    if n < 10 then ["0123456789"[n]] else Digits(n / 10) + ["0123456789"[n % 10]]
  }

  /** `%ld`, and `%06ld`, whose width counts the sign. */
  function Number(n: int): Bytes {
    if n >= 0 then Digits(n) else "-" + Digits(-n)
  }

  function Zeros(n: int): Bytes {
    if n <= 0 then "" else seq(n, _ => '0')
  }

  function Number06(n: int): Bytes {
    if n >= 0 then Zeros(6 - |Digits(n)|) + Digits(n) else "-" + Zeros(5 - |Digits(-n)|) + Digits(-n)
  }

  /** `%-5s` */
  function Padded5(s: Bytes): Bytes {
    if |s| >= 5 then s else s + Blank(5 - |s|)
  }

  /** Integer division of C. */
  function Microseconds(nsec: int): int {
    if nsec >= 0 then nsec / 1000 else -(-nsec / 1000)
  }

  /** The pieces whose condition holds. */
  function Selected(parts: seq<(bool, Bytes)>): seq<Piece> {
    if parts == [] then []
    else (if parts[0].0 then [Printed(parts[0].1)] else []) + Selected(parts[1..])
  }

  function Labeled(name: Bytes, text: Bytes): (r: Bytes)
    requires name != []
    ensures r != []
  {
    name + text
  }

  /** What `format_line` appends, in order; `date` and `zone` are the cached timestamp. */
  function Parts(c: Settings, m: R.Message, date: Bytes, zone: Bytes): (parts: seq<(bool, Bytes)>)
    requires R.WellFormed(m)
    ensures forall i :: 0 <= i < |parts| ==> parts[i].1 != []
  {
    R.ScanStops(m.text);
    var verbose, debug := c.detail.Verbose? || c.detail.Debug?, c.detail.Debug?;
    var file := if m.file.Some? then R.Basename(m.file.value) else R.UNKNOWN;
    [(true, Labeled(date + ".", Number06(Microseconds(m.ts.nsec)) + zone + " " + Padded5(LevelName(m.level)))),
     (verbose && c.pid, Labeled(" pid=", Number(m.pid))),
     (verbose && c.tid, Labeled(" tid=", Number(m.tid))),
     (!c.detail.Minimal?, Labeled(" [", R.OrElse(m.moduleName, R.APP) + "]")),
     (debug && m.requestId != [], Labeled(" request=", m.requestId)),
     (debug && m.sessionId != [], Labeled(" session=", m.sessionId)),
     (debug && m.traceId != [], Labeled(" trace=", m.traceId)),
     (debug && c.source, Labeled(" ", file + ":" + Number(m.line) + " " + R.OrElse(m.func, R.UNKNOWN) + "()")),
     (true, Labeled(" ", m.text[..R.Scan(m.text)]))]
  }

  function Pieces(c: Settings, m: R.Message, date: Bytes, zone: Bytes): seq<Piece>
    requires R.WellFormed(m)
  {
    Selected(Parts(c, m, date, zone))
  }

  lemma {:induction false} SelectedHaveText(parts: seq<(bool, Bytes)>)
    requires forall i :: 0 <= i < |parts| ==> parts[i].1 != []
    ensures AllPrinted(Selected(parts))
  {
    if parts != [] {
      assert forall i :: 0 <= i < |parts[1..]| ==> parts[1..][i] == parts[i + 1];
      SelectedHaveText(parts[1..]);
    }
  }

  /** Every piece has some text, so a full buffer is noticed at the next piece. */
  lemma PiecesHaveText(c: Settings, m: R.Message, date: Bytes, zone: Bytes)
    requires R.WellFormed(m)
    ensures AllPrinted(Pieces(c, m, date, zone))
  {
    SelectedHaveText(Parts(c, m, date, zone));
  }

  /** The whole line of a record. */
  lemma RecordLine(c: Settings, m: R.Message, date: Bytes, zone: Bytes, cap: nat)
    requires R.WellFormed(m) && cap >= 2 && Deliverable(Pieces(c, m, date, zone), cap - 2)
    ensures var pieces := Pieces(c, m, date, zone);
            var built := Build(Line([], false), pieces, cap - 2, false);
            && built.Ok?
            && Finished(built.line, cap - 2) ==
               (if |Ideal(pieces)| <= cap - 2 then Ideal(pieces) else Marked(Ideal(pieces)[..cap - 2])) + [LF]
  {
    PiecesHaveText(c, m, date, zone);
    OrdinaryLine(Pieces(c, m, date, zone), cap);
  }

  // ---- The timestamp cache ---------------------------------------------------------------

  /** `struct timestamp_cache`. */
  class TimestampCache {
    var sec: int
    var valid: bool
    var date: Bytes
    var zone: Bytes

    /** A valid cache holds the text of its second. */
    ghost predicate Valid(calendar: int -> (Bytes, Bytes))
      reads this
    {
      valid ==> (date, zone) == calendar(sec)
    }

    constructor (calendar: int -> (Bytes, Bytes))
      ensures Valid(calendar) && !valid
    {
      sec, valid, date, zone := 0, false, "", "";
    }

    /** The refresh in `format_line`; `works` says whether the C library delivers. The
        text is that of the second asked for, cached or not, or the visible fallback. */
    method Refresh(now: int, works: bool, calendar: int -> (Bytes, Bytes))
      requires Valid(calendar)
      modifies this
      ensures Valid(calendar)
      ensures valid ==> sec == now && (date, zone) == calendar(now)
      ensures !valid ==> date == "time-unavailable" && zone == ""
      ensures works || old(valid && sec == now) ==> valid
    {
      if !valid || sec != now {
        valid := false;
        if works {
          date, zone := calendar(now).0, calendar(now).1;
          sec, valid := now, true;
        } else {
          date, zone := "time-unavailable", "";
        }
      }
    }
  }

  // ---- A record ------------------------------------------------------------------------------

  /** The strict form of a record: the whole line, or an overflow exactly when something
      does not fit. */
  lemma StrictRecordLine(c: Settings, m: R.Message, date: Bytes, zone: Bytes, cap: nat)
    requires R.WellFormed(m) && cap >= 2
    ensures var pieces := Pieces(c, m, date, zone);
            var fits := |Ideal(pieces)| <= cap - 2 && AllDeliverable(pieces);
            Build(Line([], false), pieces, cap - 2, true) == if fits then Ok(Line(Ideal(pieces), false)) else Err(EOVERFLOW)
  {
    PiecesHaveText(c, m, date, zone);
    StrictIsWhole(Line([], false), Pieces(c, m, date, zone), cap - 2);
    assert [] + Ideal(Pieces(c, m, date, zone)) == Ideal(Pieces(c, m, date, zone));
  }

  /** `logger_format_line` and `logger_format_line_checked` for a record. The strict form
      succeeds exactly for a valid fraction of a second, the text of a real moment, and a
      line that fits; then it is the whole line. */
  method FormatRecord(cache: TimestampCache, calendar: int -> (Bytes, Bytes), works: bool,
                      c: Settings, m: R.Message, out: array<char>, strict: bool)
    returns (rc: int, length: nat)
    requires R.WellFormed(m) && cache.Valid(calendar)
    modifies cache, out
    ensures cache.Valid(calendar) && rc <= 0
    ensures rc != 0 ==> length == 0 && (out.Length > 0 ==> out[0] == NUL)
    ensures out.Length < 2 ==> length == 0 && (rc == 0 <==> !strict)
    ensures out.Length >= 2 && !strict ==>
              var built := Build(Line([], false), Pieces(c, m, cache.date, cache.zone), out.Length - 2, false);
              if rc != 0 then built == Err(-rc)
              else built.Ok? && length < out.Length && out[..length] == Finished(built.line, out.Length - 2)
    ensures out.Length >= 2 && strict ==>
              var pieces := Pieces(c, m, cache.date, cache.zone);
              && (rc == 0 <==>
                    && 0 <= m.ts.nsec < 1_000_000_000 && cache.valid && T.Canonical(cache.date, cache.zone)
                    && |Ideal(pieces)| <= out.Length - 2 && AllDeliverable(pieces))
              && (rc == 0 ==> cache.sec == m.ts.sec && length < out.Length && out[..length] == Ideal(pieces) + [LF])
  {
    length := 0;
    if out.Length == 0 { return if strict then -EOVERFLOW else 0, 0; }
    out[0] := NUL;
    if out.Length == 1 { return if strict then -EOVERFLOW else 0, 0; }
    if strict && (m.ts.nsec < 0 || m.ts.nsec >= 1_000_000_000) { return -EINVAL, 0; }
    cache.Refresh(m.ts.sec, works, calendar);
    if strict {
      var canonical := T.CanonicalTime(cache.valid, cache.date, cache.zone);
      if !canonical { return -EOVERFLOW, 0; }
      PiecesHaveText(c, m, cache.date, cache.zone);
      rc, length := FormatStrict(out, Pieces(c, m, cache.date, cache.zone));
    } else {
      rc, length := Format(out, Pieces(c, m, cache.date, cache.zone), false);
    }
  }

  method FormatStrict(out: array<char>, pieces: seq<Piece>) returns (rc: int, length: nat)
    requires AllPrinted(pieces) && out.Length >= 2
    modifies out
    ensures rc <= 0 && (rc != 0 ==> length == 0 && out[0] == NUL)
    ensures rc == 0 <==> |Ideal(pieces)| <= out.Length - 2 && AllDeliverable(pieces)
    ensures rc == 0 ==> length < out.Length && out[..length] == Ideal(pieces) + [LF]
  {
    StrictIsWhole(Line([], false), pieces, out.Length - 2);
    assert [] + Ideal(pieces) == Ideal(pieces);
    rc, length := Format(out, pieces, true);
  }
}
