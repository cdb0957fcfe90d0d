/** The terminal's line discipline: bytes typed at a terminal become edited lines, echo and
    signals. Its settings do not change and no read is parked while bytes arrive. */
module Tty {
  import opened Wrappers

  type Byte = b: int | 0 <= b < 256

  datatype Signal = INT | QUIT | TSTP

  /** The termios flags the discipline looks at; onlcr stands for OPOST and ONLCR together. */
  datatype Termios = Termios(
    icrnl: bool, inlcr: bool, igncr: bool, iutf8: bool, onlcr: bool,
    echo: bool, echoe: bool, echok: bool, echonl: bool, isig: bool, icanon: bool, noflsh: bool,
    intr: Byte, quit: Byte, susp: Byte, erase: Byte, kill: Byte, eof: Byte)

  /** The edit line, the bytes readers may take, and all echo and signals so far. */
  datatype State = State(line: seq<Byte>, cooked: seq<Byte>, eofFlag: bool, echoed: seq<Byte>, signals: seq<Signal>)

  // ---- characters ----------------------------------------------------------------------------

  /** (b & 0xC0) === 0x80 */
  predicate Continues(b: Byte) { 128 <= b < 192 }

  /** The bytes at the end of a line that belong to its last character, but for the first of
      the line. */
  function Tail(line: seq<Byte>): (n: nat)
    ensures line == [] ==> n == 0
    ensures line != [] ==> n < |line|
  {
    if |line| > 1 && Continues(line[|line| - 1]) then 1 + Tail(line[..|line| - 1]) else 0
  }

  /** The six low bits of each byte in turn. */
  function Decoded(cp: nat, tail: seq<Byte>): nat {
    if tail == [] then cp else Decoded(cp, tail[..|tail| - 1]) * 64 + tail[|tail| - 1] % 64
  }

  const Wide: seq<(nat, nat)> := [
    (0x1100, 0x115F), (0x2329, 0x232A), (0x2E80, 0x303E), (0x3041, 0x33FF),
    (0x3400, 0x4DBF), (0x4E00, 0x9FFF), (0xA000, 0xA4CF), (0xA960, 0xA97F),
    (0xAC00, 0xD7A3), (0xF900, 0xFAFF), (0xFE10, 0xFE19), (0xFE30, 0xFE6B),
    (0xFF00, 0xFF60), (0xFFE0, 0xFFE6), (0x16FE0, 0x16FE4), (0x17000, 0x187F7),
    (0x18800, 0x18CD5), (0x1B000, 0x1B2FF), (0x1F300, 0x1F64F),
    (0x1F680, 0x1F6FF), (0x1F900, 0x1F9FF), (0x1FA70, 0x1FAFF),
    (0x20000, 0x2FFFD), (0x30000, 0x3FFFD)]

  /** wcwidthCp: display cells of a code point. */
  function Width(cp: nat): nat {
    if cp >= 0x1100 && exists i :: 0 <= i < |Wide| && Wide[i].0 <= cp <= Wide[i].1 then 2 else 1
  }

  /** The cells of a character with this first byte and these continuation bytes. */
  function Cells(lead: Byte, tail: seq<Byte>): nat {
    if lead < 0x80 && |tail| == 0 then Width(lead)
    else if 192 <= lead < 224 && |tail| == 1 then Width(Decoded(lead % 32, tail))
    else if 224 <= lead < 240 && |tail| == 2 then Width(Decoded(lead % 16, tail))
    else if 240 <= lead < 248 && |tail| == 3 then Width(Decoded(lead % 8, tail))
    else 1
  }

  /** The line without its last character. */
  function Popped(iutf8: bool, line: seq<Byte>): (r: seq<Byte>)
    ensures line != [] ==> |r| < |line|
  {
    if line == [] then [] else line[..|line| - 1 - if iutf8 then Tail(line) else 0]
  }

  function PoppedCells(iutf8: bool, line: seq<Byte>): nat {
    if line == [] || !iutf8 then 1
    else var n := |line| - 1 - Tail(line); Cells(line[n], line[n + 1..])
  }

  /** [BS SP BS] for each cell. */
  function Rubout(cells: nat): seq<Byte> { if cells == 0 then [] else Rubout(cells - 1) + [8, 32, 8] }

  /** The rubout of everything on the line, last character first. */
  function RuboutAll(iutf8: bool, line: seq<Byte>): seq<Byte>
    decreases |line|
  {
    if line == [] then [] else Rubout(PoppedCells(iutf8, line)) + RuboutAll(iutf8, Popped(iutf8, line))
  }

  // ---- one byte at a time ------------------------------------------------------------------------

  function Newline(t: Termios): seq<Byte> { if t.onlcr then [13, 10] else [10] }

  function SignalOf(t: Termios, b: Byte): Option<Signal> {
    if !t.isig then None
    else if b == t.intr then Some(INT) else if b == t.quit then Some(QUIT) else if b == t.susp then Some(TSTP) else None
  }

  /** What input translation makes of a byte; none if it is ignored. */
  function Mapped(t: Termios, b: Byte): Option<Byte> {
    if b == 13 then if t.igncr then None else if t.icrnl then Some(10) else Some(13)
    else if b == 10 && t.inlcr then Some(13) else Some(b)
  }

  function OnSignal(t: Termios, s: State, b: Byte, sig: Signal): State {
    var flushed := if t.noflsh then s else s.(line := [], cooked := []);
    flushed.(echoed := s.echoed + (if t.echo then [94, 64 + b % 32] + Newline(t) else []), signals := s.signals + [sig])
  }

  function OnCanonical(t: Termios, s: State, b: Byte): State {
    if b == t.erase then
      if s.line == [] then s
      else s.(line := Popped(t.iutf8, s.line),
              echoed := s.echoed + if t.echo && t.echoe then Rubout(PoppedCells(t.iutf8, s.line)) else [])
    else if b == t.kill then
      s.(line := [], echoed := s.echoed + if t.echo && t.echok then RuboutAll(t.iutf8, s.line) else [])
    else if b == t.eof then
      if s.line != [] then s.(line := [], cooked := s.cooked + s.line) else s.(eofFlag := true)
    else if b == 10 then
      s.(line := [], cooked := s.cooked + s.line + [10], echoed := s.echoed + if t.echo || t.echonl then Newline(t) else [])
    else s.(line := s.line + [b], echoed := s.echoed + if t.echo then [b] else [])
  }

  function OnRaw(t: Termios, s: State, b: Byte): State {
    s.(cooked := s.cooked + [b], echoed := s.echoed + if t.echo then [b] else [])
  }

  /** The discipline as it would be if every byte came alone. */
  function OnByte(t: Termios, s: State, b: Byte): State {
    var m := Mapped(t, b);
    if m.None? then s
    else if SignalOf(t, m.value).Some? then OnSignal(t, s, m.value, SignalOf(t, m.value).value)
    else if t.icanon then OnCanonical(t, s, m.value) else OnRaw(t, s, m.value)
  }

  function Fed(t: Termios, s: State, bytes: seq<Byte>): State {
    if bytes == [] then s else OnByte(t, Fed(t, s, bytes[..|bytes| - 1]), bytes[|bytes| - 1])
  }

  lemma {:induction false} FedConcat(t: Termios, s: State, a: seq<Byte>, b: seq<Byte>)
    ensures Fed(t, s, a + b) == Fed(t, Fed(t, s, a), b)
  {
    if b == [] {
      assert a + b == a;
    } else {
      var k := |b| - 1;
      assert (a + b)[..|a| + k] == a + b[..k];
      FedConcat(t, s, a, b[..k]);
    }
  }

  /** What a sequence of bursts amounts to. */
  function Joined(bursts: seq<seq<Byte>>): seq<Byte> {
    if bursts == [] then [] else Joined(bursts[..|bursts| - 1]) + bursts[|bursts| - 1]
  }

  function FedAll(t: Termios, s: State, bursts: seq<seq<Byte>>): State {
    if bursts == [] then s else Fed(t, FedAll(t, s, bursts[..|bursts| - 1]), bursts[|bursts| - 1])
  }

  /** However the bytes are divided into bursts, the outcome is the same. */
  lemma {:induction false} BurstsDoNotMatter(t: Termios, s: State, bursts: seq<seq<Byte>>)
    ensures FedAll(t, s, bursts) == Fed(t, s, Joined(bursts))
  {
    if bursts != [] {
      var k := |bursts| - 1;
      BurstsDoNotMatter(t, s, bursts[..k]);
      FedConcat(t, s, Joined(bursts[..k]), bursts[k]);
    }
  }

  // ---- the terminal itself -------------------------------------------------------------------------

  class Terminal {
    const t: Termios
    var line: seq<Byte>
    var cooked: seq<Byte>
    var eofFlag: bool
    var echoed: seq<Byte>
    var signals: seq<Signal>

    function Now(): State
      reads this
    {
      State(line, cooked, eofFlag, echoed, signals)
    }

    constructor (t: Termios)
      ensures this.t == t && Now() == State([], [], false, [], [])
    {
      this.t, line, cooked, eofFlag, echoed, signals := t, [], [], false, [], [];
    }

    /** _popChar: takes one character off the line and says how many cells it had. */
    method PopChar() returns (cells: nat)
      requires line != []
      modifies this`line
      ensures line == Popped(t.iutf8, old(line)) && cells == PoppedCells(t.iutf8, old(line))
    {
      if !t.iutf8 {
        line := line[..|line| - 1];
        return 1;
      }
      var tail: seq<Byte> := [];
      while |line| > 1 && Continues(line[|line| - 1])
        invariant line != [] && line + tail == old(line)
        invariant |tail| + Tail(line) == Tail(old(line))
        decreases |line|
      {
        tail := [line[|line| - 1]] + tail;
        line := line[..|line| - 1];
      }
      var lead := line[|line| - 1];
      line := line[..|line| - 1];
      assert old(line)[|line|] == lead && old(line)[|line| + 1..] == tail && old(line)[..|line|] == line;
      hide Cells, Tail;
      cells := Decode(lead, tail);
    }

    /** The rest of _popChar: the cells of what fell. */
    method Decode(lead: Byte, tail: seq<Byte>) returns (cells: nat)
      ensures cells == Cells(lead, tail)
    {
      cells := 1;
      if (lead < 0x80 && |tail| == 0) || (192 <= lead < 224 && |tail| == 1)
         || (224 <= lead < 240 && |tail| == 2) || (240 <= lead < 248 && |tail| == 3) {
        var cp: nat := if lead < 0x80 then lead else if lead < 224 then lead % 32 else if lead < 240 then lead % 16 else lead % 8;
        ghost var first := cp;
        for i := 0 to |tail|
          invariant cp == Decoded(first, tail[..i])
        {
          assert tail[..i + 1][..i] == tail[..i];
          cp := cp * 64 + tail[i] % 64;
        }
        assert tail[..|tail|] == tail;
        cells := Width(cp);
      }
    }

    /** Echoes the rubout of some cells. */
    method EchoRubout(cells: nat)
      modifies this`echoed
      ensures echoed == old(echoed) + Rubout(cells)
    {
      for i := 0 to cells
        invariant echoed == old(echoed) + Rubout(i)
      {
        echoed := echoed + [8, 32, 8];
      }
    }

    method KillLine()
      modifies this`line, this`echoed
      ensures line == [] && echoed == old(echoed) + if t.echo && t.echok then RuboutAll(t.iutf8, old(line)) else []
    {
      hide Popped, PoppedCells, Rubout;
      if t.echo && t.echok {
        while line != []
          invariant echoed + RuboutAll(t.iutf8, line) == old(echoed) + RuboutAll(t.iutf8, old(line))
          decreases |line|
        {
          ghost var before, was := echoed, line;
          var cells := PopChar();
          EchoRubout(cells);
          assert before + (Rubout(cells) + RuboutAll(t.iutf8, line)) == echoed + RuboutAll(t.iutf8, line);
        }
      } else {
        line := [];
      }
    }

    /** One byte after translation and signals, in canonical mode. */
    method Edit(b: Byte)
      modifies this
      ensures Now() == OnCanonical(t, old(Now()), b)
    {
      hide Popped, PoppedCells, Rubout, RuboutAll, Newline;
      if b == t.erase {
        if line != [] {
          var cells := PopChar();
          if t.echo && t.echoe { EchoRubout(cells); }
        }
        return;
      }
      if b == t.kill {
        KillLine();
        return;
      }
      if b == t.eof {
        if line != [] {
          cooked, line := cooked + line, [];
        } else {
          eofFlag := true;
        }
        return;
      }
      if b == 10 {
        line := line + [10];
        if t.echo || t.echonl { echoed := echoed + Newline(t); }
        cooked, line := cooked + line, [];
        return;
      }
      line := line + [b];
      if t.echo { echoed := echoed + [b]; }
    }

    /** A signal character: unless NOFLSH is set it discards all input, and what this burst
        has collected; otherwise that becomes readable. */
    method SignalChar(b: Byte, sig: Signal, raw: seq<Byte>) returns (raw': seq<Byte>)
      modifies this
      ensures raw' == [] && Now() == OnSignal(t, old(Now()).(cooked := old(cooked) + raw), b, sig)
    {
      if t.noflsh {
        cooked := cooked + raw;
      } else {
        line, cooked := [], [];
      }
      raw' := [];
      if t.echo {
        ghost var before := echoed;
        echoed := echoed + [94, 64 + b % 32];
        echoed := echoed + Newline(t);
        assert echoed == before + ([94, 64 + b % 32] + Newline(t));
      }
      signals := signals + [sig];
    }

    /** One byte of a burst. */
    method InputByte(byte: Byte, raw: seq<Byte>) returns (raw': seq<Byte>)
      requires t.icanon ==> raw == []
      modifies this
      ensures t.icanon ==> raw' == []
      ensures Now().(cooked := cooked + raw') == OnByte(t, old(Now()).(cooked := old(cooked) + raw), byte)
    {
      hide OnSignal, OnCanonical;
      raw' := raw;
      var b := byte;
      if b == 13 {
        if t.igncr { return; }
        if t.icrnl { b := 10; }
      } else if b == 10 && t.inlcr {
        b := 13;
      }
      assert Mapped(t, byte) == Some(b);
      var sig := SignalOf(t, b);
      if sig.Some? {
        raw' := SignalChar(b, sig.value, raw);
        assert cooked + [] == cooked;
      } else if t.icanon {
        assert old(cooked) + [] == old(cooked);
        Edit(b);
        assert cooked + [] == cooked;
      } else {
        raw' := raw + [b];
        if t.echo { echoed := echoed + [b]; }
        assert cooked + raw' == (cooked + raw) + [b];
      }
    }

    /** input: a burst of bytes. In raw mode they are collected and only become readable
        together, at the end of the burst or before a signal that flushes nothing. */
    method Input(bytes: seq<Byte>)
      modifies this
      ensures Now() == Fed(t, old(Now()), bytes)
    {
      hide OnByte;
      var raw: seq<Byte> := [];
      assert cooked + raw == cooked;
      for i := 0 to |bytes|
        invariant Now().(cooked := cooked + raw) == Fed(t, old(Now()), bytes[..i])
        invariant t.icanon ==> raw == []
      {
        assert bytes[..i + 1][..i] == bytes[..i];
        raw := InputByte(bytes[i], raw);
      }
      assert bytes[..|bytes|] == bytes;
      cooked := cooked + raw;
    }
  }

  // ---- erasing characters of UTF-8 text --------------------------------------------------------

  /** A Unicode scalar value. */
  type Scalar = c: nat | c < 0xD800 || 0xE000 <= c < 0x110000

  /** The encoding of section 3 of RFC 3629. */
  function Utf8(c: Scalar): seq<Byte> {
    if c < 0x80 then [c]
    else if c < 0x800 then [192 + c / 64, 128 + c % 64]
    else if c < 0x10000 then [224 + c / 4096, 128 + c / 64 % 64, 128 + c % 64]
    else [240 + c / 262144, 128 + c / 4096 % 64, 128 + c / 64 % 64, 128 + c % 64]
  }

  function Encoded(text: seq<Scalar>): seq<Byte> {
    if text == [] then [] else Encoded(text[..|text| - 1]) + Utf8(text[|text| - 1])
  }

  lemma {:induction false} TailOf(line: seq<Byte>, lead: Byte, tail: seq<Byte>)
    requires !Continues(lead) && forall i :: 0 <= i < |tail| ==> Continues(tail[i])
    ensures Tail(line + [lead] + tail) == |tail|
    decreases |tail|
  {
    var all := line + [lead] + tail;
    if tail != [] {
      assert all[..|all| - 1] == line + [lead] + tail[..|tail| - 1];
      TailOf(line, lead, tail[..|tail| - 1]);
    }
  }

  /** A character's bytes are read by their low bits, whether or not they are its shortest
      encoding. */
  lemma EncodedCells(lead: Byte, x: Byte, y: Byte, z: Byte)
    ensures 192 <= lead < 224 ==> Cells(lead, [x]) == Width((lead - 192) * 64 + x % 64)
    ensures 224 <= lead < 240 ==> Cells(lead, [x, y]) == Width(((lead - 224) * 64 + x % 64) * 64 + y % 64)
    ensures 240 <= lead < 248 ==> Cells(lead, [x, y, z]) == Width((((lead - 240) * 64 + x % 64) * 64 + y % 64) * 64 + z % 64)
  {
    hide Width, Decoded;
    LeadBits(lead);
    DecodedBytes(if lead < 192 then 0 else if lead < 224 then lead - 192 else if lead < 240 then lead - 224 else lead - 240, x, y, z);
  }

  lemma LeadBits(lead: Byte)
    ensures 192 <= lead < 224 ==> lead % 32 == lead - 192
    ensures 224 <= lead < 240 ==> lead % 16 == lead - 224
    ensures 240 <= lead < 248 ==> lead % 8 == lead - 240
  {
  }

  lemma DecodedBytes(cp: nat, x: Byte, y: Byte, z: Byte)
    ensures Decoded(cp, [x]) == cp * 64 + x % 64
    ensures Decoded(cp, [x, y]) == (cp * 64 + x % 64) * 64 + y % 64
    ensures Decoded(cp, [x, y, z]) == ((cp * 64 + x % 64) * 64 + y % 64) * 64 + z % 64
  {
    assert [x][..0] == [] && [x, y][..1] == [x] && [x, y, z][..2] == [x, y];
    assert Decoded(cp, [x]) == cp * 64 + x % 64;
    assert Decoded(cp, [x, y]) == (cp * 64 + x % 64) * 64 + y % 64;
  }

  /** The bytes of a character decode to it. */
  lemma CellsOfScalar(c: Scalar)
    ensures Cells(Utf8(c)[0], Utf8(c)[1..]) == Width(c)
    ensures !Continues(Utf8(c)[0]) && forall i :: 1 <= i < |Utf8(c)| ==> Continues(Utf8(c)[i])
  {
    hide Width, Cells;
    var u := Utf8(c);
    if c < 0x80 {
      assert u[1..] == [];
      MalformedCells(c, []);
      SomeWidths(c);
    } else if c < 0x800 {
      CellsOfTwo(c / 64, c % 64);
      assert u[1..] == [128 + c % 64];
    } else if c < 0x10000 {
      CellsOfThree(c / 4096, c / 64 % 64, c % 64);
      Digits2(c);
      assert u[1..] == [128 + c / 64 % 64, 128 + c % 64];
    } else {
      CellsOfFour(c / 262144, c / 4096 % 64, c / 64 % 64, c % 64);
      Digits3(c);
      assert u[1..] == [128 + c / 4096 % 64, 128 + c / 64 % 64, 128 + c % 64];
    }
  }

  lemma CellsOfTwo(a: nat, x: nat)
    requires a < 32 && x < 64
    ensures Cells(192 + a, [128 + x]) == Width(a * 64 + x)
  {
    hide Cells, Width;
    LowBits(x);
    EncodedCells(192 + a, 128 + x, 0, 0);
  }

  lemma CellsOfThree(a: nat, x: nat, y: nat)
    requires a < 16 && x < 64 && y < 64
    ensures Cells(224 + a, [128 + x, 128 + y]) == Width((a * 64 + x) * 64 + y)
  {
    hide Cells, Width;
    LowBits(x);
    LowBits(y);
    EncodedCells(224 + a, 128 + x, 128 + y, 0);
  }

  lemma CellsOfFour(a: nat, x: nat, y: nat, z: nat)
    requires a < 8 && x < 64 && y < 64 && z < 64
    ensures Cells(240 + a, [128 + x, 128 + y, 128 + z]) == Width(((a * 64 + x) * 64 + y) * 64 + z)
  {
    hide Cells, Width;
    LowBits(x);
    LowBits(y);
    LowBits(z);
    EncodedCells(240 + a, 128 + x, 128 + y, 128 + z);
  }

  lemma LowBits(x: nat)
    requires x < 64
    ensures (128 + x) % 64 == x
  {
  }

  lemma Digits2(c: nat)
    ensures (c / 4096 * 64 + c / 64 % 64) * 64 + c % 64 == c
  {
    var d := c / 64;
    assert d / 64 == c / 4096;
  }

  lemma Digits3(c: nat)
    ensures ((c / 262144 * 64 + c / 4096 % 64) * 64 + c / 64 % 64) * 64 + c % 64 == c
  {
    var d := c / 64;
    assert d / 4096 == c / 262144 && d / 64 == c / 4096;
    Digits2(d);
  }

  /** With IUTF8 set, an erase on a line of UTF-8 text takes away exactly the last character,
      and rubs out exactly its cells. */
  lemma EraseTakesOneCharacter(text: seq<Scalar>, c: Scalar)
    ensures Popped(true, Encoded(text + [c])) == Encoded(text)
    ensures PoppedCells(true, Encoded(text + [c])) == Width(c)
  {
    var line := Encoded(text);
    var u := Utf8(c);
    assert (text + [c])[..|text|] == text;
    assert line + u == line + [u[0]] + u[1..];
    CellsOfScalar(c);
    TailOf(line, u[0], u[1..]);
  }

  /** So on such a line it does what a user sees: one character and its cells go. */
  lemma EraseOnText(t: Termios, s: State, text: seq<Scalar>, c: Scalar)
    requires t.iutf8 && t.icanon && s.line == Encoded(text + [c])
    requires Mapped(t, t.erase) == Some(t.erase) && SignalOf(t, t.erase).None?
    ensures var after := OnByte(t, s, t.erase);
      after == s.(line := Encoded(text), echoed := s.echoed + if t.echo && t.echoe then Rubout(Width(c)) else [])
  {
    EraseTakesOneCharacter(text, c);
    assert (text + [c])[..|text|] == text;
  }

  // ---- what typing does ------------------------------------------------------------------------------

  /** A byte that is neither a control character of these settings nor an end of line. */
  predicate Ordinary(t: Termios, b: Byte) {
    && b != 13 && b != 10 && b != t.erase && b != t.kill && b != t.eof
    && (t.isig ==> b != t.intr && b != t.quit && b != t.susp)
  }

  predicate AllOrdinary(t: Termios, text: seq<Byte>) { forall i :: 0 <= i < |text| ==> Ordinary(t, text[i]) }

  /** The key that ends a line: a newline, or with ICRNL a return, to which no other meaning
      is given. */
  predicate Ends(t: Termios, b: Byte) {
    && ((b == 10 && !t.inlcr) || (b == 13 && t.icrnl && !t.igncr))
    && 10 != t.erase && 10 != t.kill && 10 != t.eof && (t.isig ==> 10 != t.intr && 10 != t.quit && 10 != t.susp)
  }

  /** Typed text goes to the end of the line, and to the screen if it is echoed. */
  lemma {:induction false} Types(t: Termios, s: State, text: seq<Byte>)
    requires t.icanon && AllOrdinary(t, text)
    ensures Fed(t, s, text) == s.(line := s.line + text, echoed := s.echoed + if t.echo then text else [])
  {
    if text != [] {
      var k := |text| - 1;
      Types(t, s, text[..k]);
      assert text == text[..k] + [text[k]];
      TypesOne(t, Fed(t, s, text[..k]), text[k]);
      hide OnByte;
      assert s.line + text[..k] + [text[k]] == s.line + text;
      assert s.echoed + text[..k] + [text[k]] == s.echoed + text;
    }
  }

  lemma TypesOne(t: Termios, s: State, b: Byte)
    requires t.icanon && Ordinary(t, b)
    ensures OnByte(t, s, b) == s.(line := s.line + [b], echoed := s.echoed + if t.echo then [b] else [])
  {
  }

  /** Text and then the key that ends a line: readers get the line with its newline, and the
      screen a line end, with its return if that is asked for. */
  lemma TypesLine(t: Termios, s: State, text: seq<Byte>, enter: Byte)
    requires t.icanon && AllOrdinary(t, text) && Ends(t, enter)
    ensures var r := Fed(t, s, text + [enter]);
      && r.cooked == s.cooked + (s.line + text) + [10] && r.line == [] && r.eofFlag == s.eofFlag && r.signals == s.signals
      && r.echoed == s.echoed + (if t.echo then text else []) + if t.echo || t.echonl then (if t.onlcr then [13, 10] else [10]) else []
  {
    hide OnByte, Fed;
    Types(t, s, text);
    FedOne(t, s, text, enter);
    EndsLine(t, Fed(t, s, text), enter);
  }

  lemma FedOne(t: Termios, s: State, text: seq<Byte>, b: Byte)
    ensures Fed(t, s, text + [b]) == OnByte(t, Fed(t, s, text), b)
  {
    hide OnByte;
    assert (text + [b])[..|text|] == text;
  }

  lemma EndsLine(t: Termios, s: State, enter: Byte)
    requires t.icanon && Ends(t, enter)
    ensures OnByte(t, s, enter) == s.(line := [], cooked := s.cooked + s.line + [10],
      echoed := s.echoed + if t.echo || t.echonl then (if t.onlcr then [13, 10] else [10]) else [])
  {
  }

  /** The end-of-file key gives readers what is on the line, without a newline; on an empty
      line it is an end of file. */
  lemma TypesEof(t: Termios, s: State, text: seq<Byte>)
    requires t.icanon && AllOrdinary(t, text) && t.eof != 13 && t.eof != 10 && t.eof != t.erase && t.eof != t.kill
    requires t.isig ==> t.eof != t.intr && t.eof != t.quit && t.eof != t.susp
    ensures var r := Fed(t, s, text + [t.eof]);
      && r.line == [] && r.cooked == s.cooked + (s.line + text) && r.signals == s.signals
      && r.echoed == s.echoed + (if t.echo then text else [])
      && r.eofFlag == (s.eofFlag || s.line + text == [])
  {
    hide OnByte, Fed;
    Types(t, s, text);
    FedOne(t, s, text, t.eof);
    EndsFile(t, Fed(t, s, text));
  }

  lemma EndsFile(t: Termios, s: State)
    requires t.icanon && t.eof != 13 && t.eof != 10 && t.eof != t.erase && t.eof != t.kill
    requires t.isig ==> t.eof != t.intr && t.eof != t.quit && t.eof != t.susp
    ensures OnByte(t, s, t.eof) == s.(line := [], cooked := s.cooked + s.line, eofFlag := s.eofFlag || s.line == [])
  {
    if s.line == [] { assert s.cooked + s.line == s.cooked; }
  }

  /** n times back, blank, back. */
  ghost predicate Rubs(echo: seq<Byte>, n: nat) {
    |echo| == 3 * n && forall i :: 0 <= i < n ==> echo[3 * i] == 8 && echo[3 * i + 1] == 32 && echo[3 * i + 2] == 8
  }

  lemma {:induction false} RuboutIs(n: nat)
    ensures Rubs(Rubout(n), n)
  {
    if n > 0 { RuboutIs(n - 1); }
  }

  predicate Ascii(text: seq<Byte>) { forall i :: 0 <= i < |text| ==> text[i] < 128 }

  lemma AsciiPops(iutf8: bool, line: seq<Byte>)
    requires Ascii(line) && line != []
    ensures Popped(iutf8, line) == line[..|line| - 1] && PoppedCells(iutf8, line) == 1
  {
    assert line[|line| - 1] < 128;
    if iutf8 { assert line[|line| - 1..][1..] == []; }
  }

  lemma {:induction false} AsciiRubs(iutf8: bool, line: seq<Byte>)
    requires Ascii(line)
    ensures Rubs(RuboutAll(iutf8, line), |line|)
    decreases |line|
  {
    if line != [] {
      AsciiPops(iutf8, line);
      AsciiRubs(iutf8, line[..|line| - 1]);
      assert Rubout(1) == Rubout(0) + [8, 32, 8] == [8, 32, 8];
      var rest := RuboutAll(iutf8, line[..|line| - 1]);
      assert RuboutAll(iutf8, line) == [8, 32, 8] + rest;
      RubsMore(rest, |line| - 1);
    }
  }

  lemma RubsMore(rest: seq<Byte>, n: nat)
    requires Rubs(rest, n)
    ensures Rubs([8, 32, 8] + rest, n + 1)
  {
    var all := [8, 32, 8] + rest;
    forall i | 0 <= i < n + 1 ensures all[3 * i] == 8 && all[3 * i + 1] == 32 && all[3 * i + 2] == 8 {
      if i > 0 {
        assert all[3 * i] == rest[3 * (i - 1)] && all[3 * i + 1] == rest[3 * (i - 1) + 1] && all[3 * i + 2] == rest[3 * (i - 1) + 2];
      }
    }
  }

  /** The kill key takes the whole line away; a reader gets nothing of it, and with ECHOK each
      character of it is rubbed out. */
  lemma TypesKill(t: Termios, s: State, text: seq<Byte>)
    requires t.icanon && AllOrdinary(t, text) && t.kill != 13 && t.kill != 10 && t.kill != t.erase
    requires t.isig ==> t.kill != t.intr && t.kill != t.quit && t.kill != t.susp
    requires Ascii(s.line + text)
    ensures var r, typed := Fed(t, s, text + [t.kill]), s.echoed + if t.echo then text else [];
      && r.line == [] && r.cooked == s.cooked && r.eofFlag == s.eofFlag && r.signals == s.signals
      && typed <= r.echoed && (if t.echo && t.echok then Rubs(r.echoed[|typed|..], |s.line + text|) else r.echoed == typed)
  {
    hide Fed, RuboutAll;
    Types(t, s, text);
    FedOne(t, s, text, t.kill);
    AsciiRubs(t.iutf8, s.line + text);
  }

  /** A signal key: the signal, its name and a line end on the screen, and all input discarded
      unless NOFLSH says otherwise. */
  lemma TypesSignal(t: Termios, s: State, b: Byte, sig: Signal)
    requires t.isig && b != 13 && b != 10
    requires match sig
      case INT => b == t.intr
      case QUIT => b == t.quit && b != t.intr
      case TSTP => b == t.susp && b != t.intr && b != t.quit
    ensures var r := Fed(t, s, [b]);
      && r.signals == s.signals + [sig] && r.eofFlag == s.eofFlag
      && (if t.noflsh then r.line == s.line && r.cooked == s.cooked else r.line == [] && r.cooked == [])
      && r.echoed == s.echoed + if t.echo then [94, 64 + b % 32] + (if t.onlcr then [13, 10] else [10]) else []
  {
    assert [b][..0] == [] && Fed(t, s, []) == s;
  }

  /** Without ICANON bytes are readable as they are typed; only line ends are translated. */
  lemma {:induction false} TypesRaw(t: Termios, s: State, text: seq<Byte>)
    requires !t.icanon && !t.isig && forall i :: 0 <= i < |text| ==> text[i] != 13 && text[i] != 10
    ensures Fed(t, s, text) == s.(cooked := s.cooked + text, echoed := s.echoed + if t.echo then text else [])
  {
    if text != [] {
      var k := |text| - 1;
      TypesRaw(t, s, text[..k]);
      TypesRawOne(t, Fed(t, s, text[..k]), text[k]);
      hide OnByte;
      assert text == text[..k] + [text[k]];
      assert s.cooked + text[..k] + [text[k]] == s.cooked + text;
      assert s.echoed + text[..k] + [text[k]] == s.echoed + text;
    }
  }

  lemma TypesRawOne(t: Termios, s: State, b: Byte)
    requires !t.icanon && !t.isig && b != 13 && b != 10
    ensures OnByte(t, s, b) == s.(cooked := s.cooked + [b], echoed := s.echoed + if t.echo then [b] else [])
  {
  }

  lemma TranslatesRaw(t: Termios, s: State, b: Byte)
    requires !t.icanon && !t.isig && (b == 13 || b == 10)
    ensures Fed(t, s, [b]).cooked == s.cooked +
      if b == 13 && t.igncr then [] else if b == 13 && t.icrnl then [10] else if b == 10 && t.inlcr then [13] else [b]
  {
    assert [b][..0] == [] && Fed(t, s, []) == s;
  }

  /** Han, kana and Hangul syllables take two cells, and everything below 0x1100 one. */
  lemma SomeWidths(cp: nat)
    ensures cp < 0x1100 ==> Width(cp) == 1
    ensures 0x4E00 <= cp <= 0x9FFF || 0x3041 <= cp <= 0x30FF || 0xAC00 <= cp <= 0xD7A3 ==> Width(cp) == 2
    ensures 0x1100 <= cp <= 0x115F || 0x1F300 <= cp <= 0x1F64F || 0x30000 <= cp <= 0x3FFFD ==> Width(cp) == 2
    ensures 0xE000 <= cp < 0xF900 || 0x1160 <= cp < 0x2329 || 0x3FFFD < cp ==> Width(cp) == 1
  {
    assert Wide[5] == (0x4E00, 0x9FFF) && Wide[3] == (0x3041, 0x33FF) && Wide[8] == (0xAC00, 0xD7A3);
    assert Wide[0] == (0x1100, 0x115F) && Wide[18] == (0x1F300, 0x1F64F) && Wide[23] == (0x30000, 0x3FFFD);
  }

  /** Bytes that begin no character, and characters cut short or too long, take one cell. */
  lemma MalformedCells(lead: Byte, tail: seq<Byte>)
    ensures 128 <= lead < 192 || 248 <= lead ==> Cells(lead, tail) == 1
    ensures 192 <= lead < 224 && |tail| != 1 ==> Cells(lead, tail) == 1
    ensures 224 <= lead < 240 && |tail| != 2 ==> Cells(lead, tail) == 1
    ensures 240 <= lead < 248 && |tail| != 3 ==> Cells(lead, tail) == 1
    ensures lead < 128 ==> Cells(lead, tail) == 1
    ensures Continues(lead) <==> lead / 64 == 2
  {
  }
}
