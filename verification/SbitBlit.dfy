/** Machine words as their bits, most significant first, with the C operators blit_stream uses. */
module Words {

  type Word = seq<bool>
  type Byte = w: Word | |w| == 8 witness [false, false, false, false, false, false, false, false]

  function Zero(n: nat): (r: Word)
    ensures |r| == n && forall i :: 0 <= i < n ==> !r[i]
  {
    seq(n, _ => false)
  }

  function Ones(n: nat): (r: Word)
    ensures |r| == n && forall i :: 0 <= i < n ==> r[i]
  {
    seq(n, _ => true)
  }

  /** w << n, within the width of w. */
  function Shl(w: Word, n: nat): (r: Word)
    requires n <= |w|
    ensures |r| == |w| && forall i :: 0 <= i < |w| ==> r[i] == (i + n < |w| && w[i + n])
  {
    w[n..] + Zero(n)
  }

  /** w >> n for an unsigned w. */
  function Shr(w: Word, n: nat): (r: Word)
    requires n <= |w|
    ensures |r| == |w| && forall i :: 0 <= i < |w| ==> r[i] == (i >= n && w[i - n])
  {
    Zero(n) + w[..|w| - n]
  }

  function Or(a: Word, b: Word): (r: Word)
    requires |a| == |b|
    ensures |r| == |a| && forall i :: 0 <= i < |a| ==> r[i] == (a[i] || b[i])
  {
    seq(|a|, i requires 0 <= i < |a| => a[i] || b[i])
  }

  /** a & ~b */
  function AndNot(a: Word, b: Word): (r: Word)
    requires |a| == |b|
    ensures |r| == |a| && forall i :: 0 <= i < |a| ==> r[i] == (a[i] && !b[i])
  {
    seq(|a|, i requires 0 <= i < |a| => a[i] && !b[i])
  }

  /** Conversion to a wider unsigned type. */
  function Widen(w: Word, n: nat): (r: Word)
    requires |w| <= n
    ensures |r| == n && forall i :: 0 <= i < n ==> r[i] == (i >= n - |w| && w[i - (n - |w|)])
  {
    Zero(n - |w|) + w
  }

  /** Conversion to a narrower unsigned type: the high bits are lost. */
  function Narrow(w: Word, n: nat): (r: Word)
    requires n <= |w|
    ensures |r| == n && forall i :: 0 <= i < n ==> r[i] == w[|w| - n + i]
  {
    w[|w| - n..]
  }
}

/** The embedded-bitmap blitter of xttblit.c, for lines padded to a fixed number of bytes (align > 0). */
module SbitBlit {
  import opened Words

  // ----- one line -----

  /** Bit k of the source line that starts at byte `base`. */
  predicate SourceBit(source: seq<Byte>, base: nat, k: nat)
    requires base + k / 8 < |source|
  {
    source[base + k / 8][k % 8]
  }

  /** Bit k lies inside the first n bits of the source line, and is set. */
  predicate Painted(source: seq<Byte>, base: nat, k: int, n: int)
    requires n > 0 ==> base + (n - 1) / 8 < |source|
  {
    0 <= k < n && SourceBit(source, base, k)
  }

  /** Every bit of the line is its old value or the painted source bit shifted right by x; nothing else changed. */
  ghost predicate LineIs(a: seq<Byte>, was: seq<Byte>, line: nat, cols: nat, source: seq<Byte>, base: nat, x: int, n: int)
    requires n > 0 ==> base + (n - 1) / 8 < |source|
  {
    && |a| == |was| && line + cols <= |a|
    && (forall i, b :: line <= i < line + cols && 0 <= b < 8 ==>
          a[i][b] == (was[i][b] || Painted(source, base, 8 * (i - line) + b - x, n)))
    && (forall i :: 0 <= i < |a| && !(line <= i < line + cols) ==> a[i] == was[i])
  }

  /** The top `loaded` bits of the low half of acc are the source bits from pos on; the rest of that half is clear. */
  ghost predicate AccIs(acc: Word, loaded: nat, source: seq<Byte>, base: nat, pos: nat) {
    && |acc| == 32
    && loaded < 16
    && (loaded > 0 ==> base + (pos + loaded - 1) / 8 < |source|)
    && (forall i :: 16 <= i < 32 ==> acc[i] == (i - 16 < loaded && SourceBit(source, base, pos + (i - 16))))
  }

  /** acc |= byte << (8 - loaded) */
  function Load(acc: Word, byte: Byte, loaded: nat): (r: Word)
    requires |acc| == 32 && loaded < 8
    ensures |r| == 32
    ensures forall i :: 16 <= i < 32 ==> r[i] == (acc[i] || (loaded <= i - 16 < loaded + 8 && byte[i - 16 - loaded]))
  {
    Or(acc, Shl(Widen(byte, 32), 8 - loaded))
  }

  lemma {:induction false} LoadKeeps(acc: Word, loaded: nat, source: seq<Byte>, base: nat, pos: nat, at: nat)
    requires AccIs(acc, loaded, source, base, pos) && loaded < 8
    requires pos + loaded == 8 * (at - base) && base <= at < |source|
    ensures AccIs(Load(acc, source[at], loaded), loaded + 8, source, base, pos)
  {
    var r := Load(acc, source[at], loaded);
    forall i | 16 <= i < 32 ensures r[i] == (i - 16 < loaded + 8 && SourceBit(source, base, pos + (i - 16))) {
      var k := pos + (i - 16);
      if i - 16 < loaded {
      } else if i - 16 < loaded + 8 {
        assert k == 8 * (at - base) + (i - 16 - loaded);
        assert k / 8 == at - base && k % 8 == i - 16 - loaded;
      }
    }
  }

  lemma {:induction false} ShiftKeeps(acc: Word, loaded: nat, source: seq<Byte>, base: nat, pos: nat, n: nat)
    requires AccIs(acc, loaded, source, base, pos) && n <= loaded
    ensures n <= 32 && AccIs(Shl(acc, n), loaded - n, source, base, pos + n)
  {
    var r := Shl(acc, n);
    forall i | 16 <= i < 32 ensures r[i] == (i - 16 < loaded - n && SourceBit(source, base, pos + n + (i - 16))) {
      if i + n < 32 {
        assert acc[i + n] == (i + n - 16 < loaded && SourceBit(source, base, pos + (i + n - 16)));
      }
    }
  }

  /** What cur[0] |= val >> shift and cur[1] |= val << space leave in the two bytes. */
  function First(byte: Byte, val: Byte, shift: nat): (r: Byte)
    requires shift < 8
    ensures forall b :: 0 <= b < 8 ==> r[b] == (byte[b] || (b >= shift && val[b - shift]))
  {
    Or(byte, Shr(val, shift))
  }

  function Second(byte: Byte, val: Byte, shift: nat): (r: Byte)
    requires shift < 8
    ensures forall b :: 0 <= b < 8 ==> r[b] == (byte[b] || (b < shift && val[b + (8 - shift)]))
  {
    Or(byte, Narrow(Shl(Widen(val, 32), 8 - shift), 8))
  }

  /** The bits of val are the source bits from pos on, as many as n allows. */
  ghost predicate ValIs(val: Byte, source: seq<Byte>, base: nat, pos: nat, n: int)
    requires n > 0 ==> base + (n - 1) / 8 < |source|
  {
    forall v :: 0 <= v < 8 ==> val[v] == Painted(source, base, pos + v, n)
  }

  /** Writes one accumulator byte at cur, clipped to the line. */
  method WriteByte(a: array<Byte>, cur: nat, byteCount: int, cols: nat, val: Byte, shift: nat, second: bool,
                   ghost line: nat, ghost was: seq<Byte>, source: seq<Byte>, ghost base: nat, ghost x: int, ghost pos: nat, ghost n: nat)
    requires shift < 8 && byteCount >= 0 && cur == line + byteCount && line + cols <= a.Length
    requires pos <= n && n > 0 && base + (n - 1) / 8 < |source|
    requires pos + x == 8 * (cur - line) + shift
    requires LineIs(a[..], was, line, cols, source, base, x, pos) && ValIs(val, source, base, pos, n)
    requires n <= pos + 8 && (!second ==> n <= pos + (8 - shift))
    modifies a
    ensures LineIs(a[..], was, line, cols, source, base, x, n)
  {
    ghost var before := a[..];
    if byteCount < cols {
      a[cur] := First(a[cur], val, shift);
      if second && byteCount < cols - 1 {
        a[cur + 1] := Second(a[cur + 1], val, shift);
      }
    }
    forall i, b | line <= i < line + cols && 0 <= b < 8
      ensures a[i][b] == (was[i][b] || Painted(source, base, 8 * (i - line) + b - x, n))
    {
      WrittenBit(before, a[..], was, cur, line, cols, val, shift, second, source, base, x, pos, n, i, b);
    }
  }

  lemma {:induction false} WrittenBit(before: seq<Byte>, after: seq<Byte>, was: seq<Byte>, cur: nat, line: nat, cols: nat, val: Byte, shift: nat, second: bool,
                   source: seq<Byte>, base: nat, x: int, pos: nat, n: nat, i: nat, b: nat)
    requires shift < 8 && line <= cur && line + cols <= |before| == |after|
    requires pos <= n && n > 0 && base + (n - 1) / 8 < |source|
    requires pos + x == 8 * (cur - line) + shift
    requires LineIs(before, was, line, cols, source, base, x, pos) && ValIs(val, source, base, pos, n)
    requires n <= pos + 8 && (!second ==> n <= pos + (8 - shift))
    requires line <= i < line + cols && b < 8
    requires after[i] == if i == cur then First(before[i], val, shift) else if i == cur + 1 && second then Second(before[i], val, shift) else before[i]
    ensures after[i][b] == (was[i][b] || Painted(source, base, 8 * (i - line) + b - x, n))
  {
    hide SourceBit, First, Second;
    var k := 8 * (i - line) + b - x;
    assert before[i][b] == (was[i][b] || Painted(source, base, k, pos));
    if i == cur {
      assert k == pos + (b - shift);
      if b >= shift { assert val[b - shift] == Painted(source, base, k, n); }
    } else if i == cur + 1 {
      assert k == pos + b + (8 - shift);
      if b < shift { assert val[b + (8 - shift)] == Painted(source, base, k, n); }
    }
  }

  /** The scan state of one line: `cur` is the write cursor, `at` the read cursor, pos the next source bit. */
  ghost predicate Scan(cur: int, byteCount: int, line: nat, shift: nat, x: int, source: seq<Byte>, base: nat, at: nat,
                       acc: Word, loaded: nat, pos: nat) {
    && byteCount >= 0 && cur == line + byteCount && shift < 8
    && pos + x == 8 * byteCount + shift
    && AccIs(acc, loaded, source, base, pos) && loaded < 8
    && pos + loaded == 8 * (at - base) && base <= at
  }

  /** The part of a line that hangs over the left edge: skip whole bytes, then part of one. */
  method ClipLeft(source: seq<Byte>, base: nat, x: int, acc0: Word)
      returns (at: nat, acc: Word, loaded: nat, ghost pos: nat)
    requires x < 0 && base + (-x - 1) / 8 < |source| && |acc0| == 32
    requires forall i :: 16 <= i < 32 ==> !acc0[i]
    ensures pos == -x
    ensures Scan(base, 0, base, 0, x, source, base, at, acc, loaded, pos)
  {
    hide Shl, Load;
    var shift := x % 8;                       // x_offset & 7
    var space := 8 - shift;
    var byteCount := -((7 - x) / 8);          // (x_offset - 7) / 8, which C truncates
    var skip := -byteCount - 1;
    acc, loaded := acc0, 0;
    at := base + skip;
    assert at == base + (-x - 1) / 8;
    assert at < |source|;
    assert AccIs(acc, 0, source, base, 8 * skip);
    LoadKeeps(acc, 0, source, base, 8 * skip, at);
    acc, loaded, at := Load(acc, source[at], 0), 8, at + 1;
    ShiftKeeps(acc, 8, source, base, 8 * skip, space);
    acc, loaded := Shl(acc, space), loaded - space;
    pos := 8 * skip + space;
  }

  /** Takes eight bits from the source line and writes them. */
  method OneByte(a: array<Byte>, cur: int, byteCount: int, cols: nat, source: seq<Byte>, at0: nat, acc0: Word, loaded0: nat,
                 shift: nat, ghost was: seq<Byte>, ghost line: nat, ghost base: nat, ghost x: int, ghost n: nat, ghost pos: nat)
      returns (at: nat, acc: Word, loaded: nat)
    requires Scan(cur, byteCount, line, shift, x, source, base, at0, acc0, loaded0, pos)
    requires pos + 8 <= n && base + (n - 1) / 8 < |source|
    requires LineIs(a[..], was, line, cols, source, base, x, pos)
    modifies a
    ensures Scan(cur + 1, byteCount + 1, line, shift, x, source, base, at, acc, loaded, pos + 8)
    ensures LineIs(a[..], was, line, cols, source, base, x, pos + 8)
  {
    acc, at, loaded := acc0, at0, loaded0;
    if loaded < 8 {
      LoadKeeps(acc, loaded, source, base, pos, at);
      acc, at, loaded := Load(acc, source[at], loaded), at + 1, loaded + 8;
    }
    var val: Byte := Narrow(Shr(acc, 8), 8);
    WriteByte(a, cur, byteCount, cols, val, shift, true, line, was, source, base, x, pos, pos + 8);
    ShiftKeeps(acc, loaded, source, base, pos, 8);
    acc, loaded := Shl(acc, 8), loaded - 8;
  }

  /** The do-while loop: one whole byte a time. */
  method WholeBytes(a: array<Byte>, cur0: int, byteCount0: int, cols: nat, source: seq<Byte>, at0: nat, acc0: Word, loaded0: nat, count0: int,
                    shift: nat, ghost was: seq<Byte>, ghost line: nat, ghost base: nat, ghost x: int, ghost n: nat, ghost pos0: nat)
      returns (cur: int, byteCount: int, at: nat, acc: Word, loaded: nat, count: int, ghost pos: nat)
    requires Scan(cur0, byteCount0, line, shift, x, source, base, at0, acc0, loaded0, pos0)
    requires n > 0 && base + (n - 1) / 8 < |source| && count0 == n - pos0 && count0 >= 8
    requires LineIs(a[..], was, line, cols, source, base, x, pos0)
    modifies a
    ensures Scan(cur, byteCount, line, shift, x, source, base, at, acc, loaded, pos)
    ensures 0 <= count < 8 && count == n - pos
    ensures LineIs(a[..], was, line, cols, source, base, x, pos)
  {
    cur, byteCount, at, acc, loaded, pos := cur0, byteCount0, at0, acc0, loaded0, pos0;
    count := count0 - 8;
    while count >= 0
      invariant -8 <= count && count + 8 == n - pos
      invariant Scan(cur, byteCount, line, shift, x, source, base, at, acc, loaded, pos)
      invariant LineIs(a[..], was, line, cols, source, base, x, pos)
    {
      at, acc, loaded := OneByte(a, cur, byteCount, cols, source, at, acc, loaded, shift, was, line, base, x, n, pos);
      cur, byteCount, count, pos := cur + 1, byteCount + 1, count - 8, pos + 8;
    }
    count := count + 8;
  }

  /** Masked to `count` bits, the accumulator has just what is left of the line. */
  lemma {:induction false} LastValue(acc: Word, loaded: nat, source: seq<Byte>, base: nat, pos: nat, n: nat, count: nat)
    requires AccIs(acc, loaded, source, base, pos) && n > 0 && base + (n - 1) / 8 < |source|
    requires n == pos + count && count <= loaded && count < 8
    ensures |acc| == 32 && ValIs(AndNot(Narrow(Shr(acc, 8), 8), Shr(Ones(8), count)), source, base, pos, n)
  {
    hide Shr, Ones, Narrow, AndNot;
    var high, mask := Shr(acc, 8), Shr(Ones(8), count);
    var val := AndNot(Narrow(high, 8), mask);
    forall v | 0 <= v < 8 ensures val[v] == Painted(source, base, pos + v, n) {
      assert high[24 + v] == acc[16 + v];
      assert mask[v] == (v >= count);
    }
  }

  /** The remaining bits of a line, fewer than eight. */
  method LastBits(a: array<Byte>, cur: int, byteCount: int, cols: nat, source: seq<Byte>, at: nat, acc0: Word, loaded0: nat, count: int,
                  shift: nat, ghost was: seq<Byte>, ghost line: nat, ghost base: nat, ghost x: int, ghost n: nat, ghost pos: nat)
    requires Scan(cur, byteCount, line, shift, x, source, base, at, acc0, loaded0, pos) && line + cols <= a.Length
    requires n > 0 && base + (n - 1) / 8 < |source| && count == n - pos && 0 < count < 8
    requires LineIs(a[..], was, line, cols, source, base, x, pos)
    modifies a
    ensures LineIs(a[..], was, line, cols, source, base, x, n)
  {
    hide LineIs, ValIs, Shr, Ones, Narrow, AndNot, Load;
    var acc, loaded := acc0, loaded0;
    if loaded < count {
      LoadKeeps(acc, loaded, source, base, pos, at);
      acc, loaded := Load(acc, source[at], loaded), loaded + 8;
    }
    LastValue(acc, loaded, source, base, pos, n, count);
    var val: Byte := AndNot(Narrow(Shr(acc, 8), 8), Shr(Ones(8), count));
    WriteByte(a, cur, byteCount, cols, val, shift, count > 8 - shift, line, was, source, base, x, pos, n);
  }

  method BlitLine(a: array<Byte>, cols: nat, source: seq<Byte>, lineBuff: int, at0: nat, acc0: Word, n: nat, x: int, ghost line: nat)
    requires line + cols <= a.Length && lineBuff == line + (if x > 0 then x / 8 else 0)
    requires x < 0 ==> at0 + (-x - 1) / 8 < |source|
    requires n > 0 ==> at0 + (n - 1) / 8 < |source|
    requires |acc0| == 32 && forall i :: 16 <= i < 32 ==> !acc0[i]
    modifies a
    ensures LineIs(a[..], old(a[..]), line, cols, source, at0, x, n)
  {
    ghost var was, pos := a[..], 0;
    var cur, count, shift, at, acc, loaded := lineBuff, n as int, x % 8, at0, acc0, 0;
    var byteCount := if x >= 0 then x / 8 else -((7 - x) / 8);
    if byteCount < 0 {
      at, acc, loaded, pos := ClipLeft(source, at0, x, acc0);
      count, byteCount, shift := count + x, 0, 0;
    }
    assert Scan(cur, byteCount, line, shift, x, source, at0, at, acc, loaded, pos);
    if count >= 8 {
      cur, byteCount, at, acc, loaded, count, pos :=
        WholeBytes(a, cur, byteCount, cols, source, at, acc, loaded, count, shift, was, line, at0, x, n, pos);
    }
    if count > 0 {
      LastBits(a, cur, byteCount, cols, source, at, acc, loaded, count, shift, was, line, at0, x, n, pos);
    }
  }

  // ----- the whole bitmap -----

  const FLOW_DOWN := -1
  const FLOW_UP := 1

  datatype RasterMap = RasterMap(rows: nat, cols: nat, width: int, flow: int, bitmap: array<Byte>)

  /** The map's buffer holds exactly its rows. */
  ghost predicate ValidMap(m: RasterMap) {
    m.bitmap.Length == m.rows * m.cols
  }

  /** Where the copy goes: number of target rows, target flow, whether the source runs the other way,
      number of lines asked for, vertical offset. */
  datatype Placement = Placement(rows: nat, flow: int, inverted: bool, height: int, y: int) {

    /** The sign of the vertical cursor: +1 exactly when the copy runs in the target's own direction. */
    function Sign(): int {
      if (flow == FLOW_DOWN) != inverted then 1 else -1
    }

    /** The row of memory the first line is written to. */
    function FirstRow(): int {
      if flow == FLOW_DOWN then (if y > 0 then y else 0) else rows - 1 - (if y > 0 then y else 0)
    }

    function Row(line: int): int {
      FirstRow() + (if inverted then -line else line)
    }

    /** How many lines the loop writes before it breaks off. */
    function Lines(): (n: nat)
      ensures forall k :: 0 <= k < n ==> y + Sign() * k < rows
    {
      var h := if height < 0 then (if inverted then 0 else rows) else height;
      if y >= rows then 0
      else if Sign() == 1 && h > rows - y then rows - y
      else h
    }

    /** Every line lands inside the target. */
    predicate Fits() {
      Lines() == 0 || (0 <= Row(0) < rows && 0 <= Row(Lines() - 1) < rows)
    }

    /** Source lines that lie above the target are passed over. */
    function Skip(): nat {
      if y < 0 then -y else 0
    }

    /** Which line is written to row r of memory. */
    function LineAt(r: int): int {
      if inverted then FirstRow() - r else r - FirstRow()
    }
  }

  /** The lines to be read exist, and so does the byte that the left edge falls into, where blit_stream starts reading
      even if the whole line lies left of the edge. */
  ghost predicate Readable(source: seq<Byte>, align: nat, n: nat, x: int, p: Placement) {
    && (p.Lines() > 0 && x < 0 ==> (p.Skip() + p.Lines() - 1) * align + (-x - 1) / 8 < |source|)
    && (p.Lines() > 0 && n > 0 ==> (p.Skip() + p.Lines() - 1) * align + (n - 1) / 8 < |source|)
  }

  function BitAt(a: seq<Byte>, cols: nat, r: nat, i: nat, b: nat): bool {
    r * cols + i < |a| && b < 8 && a[r * cols + i][b]
  }

  /** The bit of the source image, n bits wide, that belongs in bit k of row r if only `lines` lines are copied. */
  ghost predicate ImageBit(source: seq<Byte>, align: nat, n: nat, p: Placement, lines: int, r: int, k: int) {
    var y := p.LineAt(r);
    0 <= y < lines && 0 <= k < n && (p.Skip() + y) * align + k / 8 < |source| && SourceBit(source, (p.Skip() + y) * align, k)
  }

  /** Every target bit is its old value or the image bit that belongs there. */
  ghost predicate Blitted(a: seq<Byte>, was: seq<Byte>, cols: nat, source: seq<Byte>, align: nat, n: nat, x: int, p: Placement, lines: int) {
    |a| == |was| &&
    forall r, i, b :: 0 <= r < p.rows && 0 <= i < cols && 0 <= b < 8 ==>
      BitAt(a, cols, r, i, b) == (BitAt(was, cols, r, i, b) || ImageBit(source, align, n, p, lines, r, 8 * i + b - x))
  }

  lemma {:induction false} RowBounds(r: nat, rows: nat, cols: nat)
    requires r < rows
    ensures 0 <= r * cols && r * cols + cols <= rows * cols
  {
    assert rows * cols == r * cols + (rows - r) * cols;
    assert (rows - r) * cols == cols + (rows - r - 1) * cols;
  }

  lemma {:induction false} RowsApart(r: nat, q: nat, i: nat, cols: nat)
    requires i < cols && r != q
    ensures !(q * cols <= r * cols + i < q * cols + cols)
  {
    if r < q { RowBounds(r, q, cols); } else { RowBounds(q, r, cols); }
  }

  /** One more line of the image. */
  lemma {:induction false} LineAdded(a: seq<Byte>, mid: seq<Byte>, was: seq<Byte>, cols: nat, source: seq<Byte>, align: nat, n: nat, x: int, p: Placement, y: nat)
    requires |was| == p.rows * cols && Blitted(mid, was, cols, source, align, n, x, p, y)
    requires y < p.Lines() && 0 <= p.Row(y) < p.rows
    requires n > 0 ==> (p.Skip() + y) * align + (n - 1) / 8 < |source|
    requires LineIs(a, mid, p.Row(y) * cols, cols, source, (p.Skip() + y) * align, x, n)
    ensures Blitted(a, was, cols, source, align, n, x, p, y + 1)
  {
    forall r, i, b | 0 <= r < p.rows && 0 <= i < cols && 0 <= b < 8
      ensures BitAt(a, cols, r, i, b) == (BitAt(was, cols, r, i, b) || ImageBit(source, align, n, p, y + 1, r, 8 * i + b - x))
    {
      LineBit(a, mid, was, cols, source, align, n, x, p, y, r, i, b);
    }
  }

  lemma {:induction false} LineBit(a: seq<Byte>, mid: seq<Byte>, was: seq<Byte>, cols: nat, source: seq<Byte>, align: nat, n: nat, x: int, p: Placement, y: nat,
                r: nat, i: nat, b: nat)
    requires |was| == p.rows * cols && Blitted(mid, was, cols, source, align, n, x, p, y)
    requires y < p.Lines() && 0 <= p.Row(y) < p.rows && r < p.rows && i < cols && b < 8
    requires n > 0 ==> (p.Skip() + y) * align + (n - 1) / 8 < |source|
    requires LineIs(a, mid, p.Row(y) * cols, cols, source, (p.Skip() + y) * align, x, n)
    ensures BitAt(a, cols, r, i, b) == (BitAt(was, cols, r, i, b) || ImageBit(source, align, n, p, y + 1, r, 8 * i + b - x))
  {
    var q := p.Row(y);
    RowBounds(r, p.rows, cols);
    assert BitAt(mid, cols, r, i, b) == (BitAt(was, cols, r, i, b) || ImageBit(source, align, n, p, y, r, 8 * i + b - x));
    hide Blitted;
    if r == q {
      assert p.LineAt(r) == y;
      assert a[q * cols + i][b] == (mid[q * cols + i][b] || Painted(source, (p.Skip() + y) * align, 8 * i + b - x, n));
    } else {
      assert p.LineAt(r) != y;
      RowsApart(r, q, i, cols);
    }
  }

  lemma {:induction false} FirstLine(p: Placement, cols: nat, firstRow: int, startIncr: int)
    requires firstRow == (if p.flow == FLOW_DOWN then 0 else p.rows - 1)
    requires startIncr == (if p.flow == FLOW_DOWN then cols as int else -(cols as int))
    ensures p.Row(0) * cols == firstRow * cols + (if p.y > 0 then p.y * startIncr else 0)
  {
    if p.y > 0 && p.flow != FLOW_DOWN {
      assert (firstRow - p.y) * cols == firstRow * cols - p.y * cols;
      assert p.y * startIncr == -(p.y * cols);
    }
  }

  lemma {:induction false} RowsMove(r: int, cols: nat)
    ensures (r + 1) * cols == r * cols + cols && (r - 1) * cols == r * cols - cols
  {
  }

  lemma {:induction false} LinesFit(p: Placement, k: nat)
    requires p.Fits() && k < p.Lines()
    ensures 0 <= p.Row(k) < p.rows
  {
  }

  /** A line read in bounds. */
  lemma {:induction false} LineReadable(source: seq<Byte>, n: nat, align: nat, x: int, p: Placement, k: nat)
    requires Readable(source, align, n, x, p) && k < p.Lines()
    ensures n > 0 ==> (p.Skip() + k) * align + (n - 1) / 8 < |source|
    ensures x < 0 ==> (p.Skip() + k) * align + (-x - 1) / 8 < |source|
  {
    Monotone(p.Skip() + k, p.Skip() + p.Lines() - 1, align);
  }

  lemma {:induction false} Monotone(a: nat, b: nat, c: nat)
    requires a <= b
    ensures a * c <= b * c
  {
  }

  method OneLine(target: RasterMap, source: seq<Byte>, n: nat, align: nat, x: int, lineBuff: int, at: nat, k: nat,
                 ghost was: seq<Byte>, ghost p: Placement)
      returns (next: nat)
    requires ValidMap(target) && p.rows == target.rows && |was| == target.rows * target.cols && p.Fits() && k < p.Lines()
    requires Readable(source, align, n, x, p)
    requires lineBuff == p.Row(k) * target.cols + (if x > 0 then x / 8 else 0) && at == (p.Skip() + k) * align
    requires Blitted(target.bitmap[..], was, target.cols, source, align, n, x, p, k)
    modifies target.bitmap
    ensures next == k + 1 && Blitted(target.bitmap[..], was, target.cols, source, align, n, x, p, k + 1)
  {
    ghost var mid := target.bitmap[..];
    LinesFit(p, k);
    LineReadable(source, n, align, x, p, k);
    RowBounds(p.Row(k), target.rows, target.cols);
    BlitLine(target.bitmap, target.cols, source, lineBuff, at, Zero(32), n, x, p.Row(k) * target.cols);
    LineAdded(target.bitmap[..], mid, was, target.cols, source, align, n, x, p, k);
    next := k + 1;
  }

  /** The starting write and read positions, clipped at the left and the top. */
  method StartPosition(target: RasterMap, align: nat, x: int, y: int, ghost p: Placement) returns (lineBuff: int, at: nat)
    requires p.rows == target.rows && p.flow == target.flow && p.y == y
    ensures lineBuff == p.Row(0) * target.cols + (if x > 0 then x / 8 else 0)
    ensures at == p.Skip() * align
  {
    var firstRow, startIncr := 0, target.cols as int;
    if target.flow != FLOW_DOWN {
      firstRow, startIncr := target.rows - 1, -(target.cols as int);
    }
    lineBuff := firstRow * target.cols;
    if x > 0 { lineBuff := lineBuff + x / 8; }
    if y > 0 { lineBuff := lineBuff + y * startIncr; }
    at := 0;
    if y < 0 { at := -y * align; }
    FirstLine(p, target.cols, firstRow, startIncr);
  }

  /** blit_stream for align > 0.  Whatever the flow, the offsets and the sizes, every target bit ends up as
      its old value or the source bit that belongs there, and no other bit changes. */
  method BlitStream(target: RasterMap, source: seq<Byte>, n: nat, height: int, align: nat, x: int, y: int, inverted: bool)
    requires ValidMap(target) && align > 0
    requires Placement(target.rows, target.flow, inverted, height, y).Fits()
    requires Readable(source, align, n, x, Placement(target.rows, target.flow, inverted, height, y))
    modifies target.bitmap
    ensures var p := Placement(target.rows, target.flow, inverted, height, y);
            Blitted(target.bitmap[..], old(target.bitmap[..]), target.cols, source, align, n, x, p, p.Lines())
  {
    ghost var p := Placement(target.rows, target.flow, inverted, height, y);
    ghost var was := target.bitmap[..];
    if inverted && height < 0 {
      return;
    }
    var cols := target.cols;
    var lineIncr := if inverted then -(cols as int) else cols as int;
    var cursorSign := if (target.flow == FLOW_DOWN) != inverted then 1 else -1;
    var lines := if height < 0 then target.rows else height;
    var lineBuff, at := StartPosition(target, align, x, y, p);
    var k := 0;
    while k < lines
      invariant 0 <= k <= p.Lines()
      invariant lineBuff == p.Row(k) * cols + (if x > 0 then x / 8 else 0)
      invariant at == (p.Skip() + k) * align
      invariant Blitted(target.bitmap[..], was, cols, source, align, n, x, p, k)
      decreases lines - k
    {
      if y + cursorSign * k >= target.rows { break; }
      RowsMove(p.Row(k), cols);
      RowsMove(p.Skip() + k, align);
      k := OneLine(target, source, n, align, x, lineBuff, at, k, was, p);
      lineBuff, at := lineBuff + lineIncr, at + align;
    }
  }

  // ----- the caller -----

  /** The parts of a TrueType embedded bitmap that placing it uses; metrics are in 1/64 pixel. */
  datatype SbitImage = SbitImage(raster: RasterMap, bitDepth: nat, xMin: int, yMax: int)

  datatype Status = Ok | InvalidArgument

  /** (v & -64) / 64: the pixel at or below v. */
  function Floor64(v: int): int {
    v / 64
  }

  /** ((v + 63) & -64) / 64: the pixel at or above v. */
  function Ceil64(v: int): int {
    (v + 63) / 64
  }

  function PlacedX(image: SbitImage, x: int): int {
    (x + Floor64(image.xMin)) * image.bitDepth
  }

  function PlacedY(target: RasterMap, image: SbitImage, y: int): int {
    target.rows - (y + Ceil64(image.yMax))
  }

  function LineBits(image: SbitImage): int {
    image.raster.width * image.bitDepth
  }

  /** The placement XTT_Get_SBit_Bitmap asks blit_stream for. */
  function Placed(target: RasterMap, image: SbitImage, y: int): Placement {
    var at := PlacedY(target, image, y);
    Placement(target.rows, target.flow, image.raster.flow * target.flow == -1, if at >= 0 then image.raster.rows else image.raster.rows + at, at)
  }

  /** The checks XTT_Get_SBit_Bitmap makes before it draws. */
  predicate Accepts(target: RasterMap, image: SbitImage, x: int, y: int) {
    && (target.flow == FLOW_UP || target.flow == FLOW_DOWN)
    && PlacedX(image, x) + LineBits(image) >= 0 && PlacedX(image, x) < target.width
    && PlacedY(target, image, y) < target.rows && PlacedY(target, image, y) + image.raster.rows >= 0
    && image.raster.cols > 0 && image.raster.rows > 0 && image.raster.bitmap.Length > 0
  }

  /** The left edge of the image lies in pixel column l; 64 units make a pixel. */
  predicate Bearing(image: SbitImage, l: int) {
    64 * l <= image.xMin < 64 * (l + 1)
  }

  /** The upper edge lies in the t-th pixel row above the base line, or on its upper side. */
  predicate Ascent(image: SbitImage, t: int) {
    64 * (t - 1) < image.yMax <= 64 * t
  }

  /** The checks do not keep the drawing inside the target.  They do exactly when: an image that runs downwards and starts
      above the target does not also end below it; and an image that runs upwards has no more lines than there are rows
      from its first one to the upper edge. */
  lemma {:induction false} FitsExactly(target: RasterMap, image: SbitImage, x: int, y: int, t: int)
    requires Accepts(target, image, x, y) && (image.raster.flow == FLOW_UP || image.raster.flow == FLOW_DOWN) && Ascent(image, t)
    ensures var top := target.rows - y - t;
            Placed(target, image, y).Fits() <==>
            if image.raster.flow == FLOW_DOWN then top >= 0 || image.raster.rows + top <= target.rows
            else if top >= 0 then image.raster.rows <= 1 + top
            else image.raster.rows + top <= 1 && (image.raster.rows + top == 1 ==> target.rows > 0)
  {
    var p := Placed(target, image, y);
    assert Ceil64(image.yMax) == t;
    if image.raster.flow == FLOW_DOWN { assert p.Sign() == 1; } else { assert p.Sign() == -1; }
  }

  /** An accepted drawing that does not fit: a three-line image starting one line above a one-line target. */
  lemma {:induction false} AcceptedButTooTall(target: RasterMap, image: SbitImage)
    requires target.rows == 1 && target.flow == FLOW_DOWN && target.width > 0
    requires image.raster.rows == 3 && image.raster.cols == 1 && image.raster.width == 8 && image.raster.flow == FLOW_DOWN && image.raster.bitmap.Length == 3
    requires image.bitDepth == 1 && image.xMin == 0 && image.yMax == 128
    ensures Accepts(target, image, 0, 0) && !Placed(target, image, 0).Fits()
  {
    assert Placed(target, image, 0).Lines() == 2;
  }

  /** A line of the source map is long enough for its width. */
  ghost predicate ValidImage(image: SbitImage) {
    ValidMap(image.raster) && 0 <= LineBits(image) <= 8 * image.raster.cols
  }

  lemma {:induction false} ImageReadable(target: RasterMap, image: SbitImage, x: int, y: int)
    requires ValidImage(image) && Accepts(target, image, x, y)
    ensures Readable(image.raster.bitmap[..], image.raster.cols, LineBits(image), PlacedX(image, x), Placed(target, image, y))
  {
    var p, m, n := Placed(target, image, y), image.raster, LineBits(image);
    if p.Lines() > 0 && n > 0 {
      Monotone(p.Skip() + p.Lines() - 1, m.rows - 1, m.cols);
      RowBounds(m.rows - 1, m.rows, m.cols);
    }
  }

  // ----- which pixel goes where -----

  /** Bit k of a row of the target, counted from the top. */
  function TargetBit(m: RasterMap, a: seq<Byte>, row: int, k: int): bool {
    var r := if m.flow == FLOW_DOWN then row else m.rows - 1 - row;
    0 <= row < m.rows && 0 <= k < 8 * m.cols && 0 <= r * m.cols + k / 8 < |a| && a[r * m.cols + k / 8][k % 8]
  }

  /** Bit k of a line of the image, counted in memory. */
  function ImageBitAt(image: SbitImage, bitmap: seq<Byte>, line: int, k: int): bool {
    0 <= line < image.raster.rows && 0 <= k < image.raster.width * image.bitDepth
    && 0 <= line * image.raster.cols + k / 8 < |bitmap| && bitmap[line * image.raster.cols + k / 8][k % 8]
  }

  /** The line of the image that is seen in a row of the target when the image starts in row `top`.  An image that runs
      upwards begins in that row, or in the first row of the target, and goes on above it. */
  function SeenLine(image: SbitImage, top: int, row: int): int {
    if image.raster.flow == FLOW_DOWN then row - top
    else if row > top && row > 0 then -1
    else if top >= 0 then top - row
    else -top - row
  }

  lemma {:induction false} SeenIs(target: RasterMap, image: SbitImage, x: int, y: int, row: nat, line: int)
    requires Accepts(target, image, x, y) && (image.raster.flow == FLOW_UP || image.raster.flow == FLOW_DOWN)
    requires Placed(target, image, y).Fits() && row < target.rows && line == SeenLine(image, PlacedY(target, image, y), row)
    ensures var p := Placed(target, image, y);
            var j := p.LineAt(if target.flow == FLOW_DOWN then row else target.rows - 1 - row);
            (0 <= j < p.Lines() <==> 0 <= line < image.raster.rows) && (0 <= j < p.Lines() ==> p.Skip() + j == line)
  {
  }

  lemma {:induction false} RowBit(target: RasterMap, a: seq<Byte>, row: nat, k: nat)
    requires |a| == target.rows * target.cols && row < target.rows && k < 8 * target.cols
    ensures TargetBit(target, a, row, k) == BitAt(a, target.cols, if target.flow == FLOW_DOWN then row else target.rows - 1 - row, k / 8, k % 8)
  {
    RowBounds(if target.flow == FLOW_DOWN then row else target.rows - 1 - row, target.rows, target.cols);
  }

  /** The pixel whose bit is bit 0 of line 0 stands in column x + l, where l is the left bearing rounded down; and the
      first row is that of y + t, where t is the ascent rounded up; rows and columns counted from the top left corner. */
  lemma {:induction false} DrawnAt(target: RasterMap, image: SbitImage, x: int, y: int, l: int, t: int, a: seq<Byte>, was: seq<Byte>, bitmap: seq<Byte>, row: nat, k: nat)
    requires Bearing(image, l) && Ascent(image, t)
    requires Accepts(target, image, x, y) && (image.raster.flow == FLOW_UP || image.raster.flow == FLOW_DOWN)
    requires Placed(target, image, y).Fits() && |was| == target.rows * target.cols && row < target.rows && k < 8 * target.cols
    requires |bitmap| == image.raster.rows * image.raster.cols && 0 <= image.raster.width * image.bitDepth <= 8 * image.raster.cols
    requires Blitted(a, was, target.cols, bitmap, image.raster.cols, LineBits(image), PlacedX(image, x), Placed(target, image, y), Placed(target, image, y).Lines())
    ensures TargetBit(target, a, row, k) ==
            (TargetBit(target, was, row, k)
             || ImageBitAt(image, bitmap, SeenLine(image, target.rows - y - t, row), k - (x + l) * image.bitDepth))
  {
    var p := Placed(target, image, y);
    var r := if target.flow == FLOW_DOWN then row else target.rows - 1 - row;
    RowBit(target, a, row, k);
    RowBit(target, was, row, k);
    assert Floor64(image.xMin) == l && Ceil64(image.yMax) == t;
    var line := SeenLine(image, target.rows - y - t, row);
    SeenIs(target, image, x, y, row, line);
    var kk := k - PlacedX(image, x);
    assert 8 * (k / 8) + k % 8 - PlacedX(image, x) == kk;
    assert BitAt(a, target.cols, r, k / 8, k % 8)
        == (BitAt(was, target.cols, r, k / 8, k % 8) || ImageBit(bitmap, image.raster.cols, LineBits(image), p, p.Lines(), r, kk));
    LineInside(image, bitmap, line, kk);
  }

  predicate OnGrid(target: RasterMap, image: SbitImage, x: int, y: int, l: int, t: int) {
    PlacedX(image, x) == (x + l) * image.bitDepth && PlacedX(image, x) + LineBits(image) == (x + l + image.raster.width) * image.bitDepth
    && PlacedY(target, image, y) == target.rows - y - t
  }

  lemma {:induction false} Rounded(target: RasterMap, image: SbitImage, x: int, y: int, l: int, t: int)
    requires Bearing(image, l) && Ascent(image, t)
    ensures OnGrid(target, image, x, y, l, t)
  {
    assert Floor64(image.xMin) == l && Ceil64(image.yMax) == t;
  }

  lemma {:induction false} LineInside(image: SbitImage, bitmap: seq<Byte>, line: int, k: int)
    requires |bitmap| == image.raster.rows * image.raster.cols && 0 <= image.raster.width * image.bitDepth <= 8 * image.raster.cols
    ensures 0 <= line < image.raster.rows && 0 <= k < image.raster.width * image.bitDepth ==> 0 <= line * image.raster.cols + k / 8 < |bitmap|
  {
    if 0 <= line < image.raster.rows { RowBounds(line, image.raster.rows, image.raster.cols); }
  }

  /** XTT_Get_SBit_Bitmap: draws exactly when its checks pass, and then every target bit is as blit_stream promises. */
  method GetSbitBitmap(target: RasterMap, image: SbitImage, x: int, y: int) returns (status: Status)
    requires ValidMap(target) && ValidImage(image) && image.raster.bitmap != target.bitmap
    requires Accepts(target, image, x, y) ==> Placed(target, image, y).Fits()
    modifies target.bitmap
    ensures status == if Accepts(target, image, x, y) then Ok else InvalidArgument
    ensures status == InvalidArgument ==> target.bitmap[..] == old(target.bitmap[..])
    ensures status == Ok ==>
              Blitted(target.bitmap[..], old(target.bitmap[..]), target.cols, image.raster.bitmap[..], image.raster.cols, LineBits(image),
                      PlacedX(image, x), Placed(target, image, y), Placed(target, image, y).Lines())
    ensures forall l, t :: Bearing(image, l) && Ascent(image, t) ==>
              (status == Ok <==>
                && (target.flow == FLOW_UP || target.flow == FLOW_DOWN)
                && image.raster.cols > 0 && image.raster.rows > 0 && image.raster.bitmap.Length > 0
                && 0 <= (x + l + image.raster.width) * image.bitDepth && (x + l) * image.bitDepth < target.width
                && 0 < y + t && y + t <= target.rows + image.raster.rows)
    ensures status == Ok && (image.raster.flow == FLOW_UP || image.raster.flow == FLOW_DOWN) ==>
              forall l, t, row, k :: Bearing(image, l) && Ascent(image, t) && 0 <= row < target.rows && 0 <= k < 8 * target.cols ==>
                TargetBit(target, target.bitmap[..], row, k) ==
                (TargetBit(target, old(target.bitmap[..]), row, k)
                 || ImageBitAt(image, image.raster.bitmap[..], SeenLine(image, target.rows - y - t, row), k - (x + l) * image.bitDepth))
  {
    hide Blitted, TargetBit, ImageBitAt, SeenLine;
    forall l, t | Bearing(image, l) && Ascent(image, t) ensures OnGrid(target, image, x, y, l, t) { Rounded(target, image, x, y, l, t); }
    if target.flow != FLOW_UP && target.flow != FLOW_DOWN { return InvalidArgument; }
    var xOffset := (x + Floor64(image.xMin)) * image.bitDepth;
    var yOffset := target.rows - (y + Ceil64(image.yMax));
    var inverted := image.raster.flow * target.flow == -1;
    var lineBits := image.raster.width * image.bitDepth;
    if xOffset + lineBits < 0 || xOffset >= target.width || yOffset >= target.rows || yOffset + image.raster.rows < 0 { return InvalidArgument; }
    if image.raster.cols <= 0 || image.raster.rows <= 0 || image.raster.bitmap.Length <= 0 { return InvalidArgument; }
    var height := if yOffset >= 0 then image.raster.rows else image.raster.rows + yOffset;
    ImageReadable(target, image, x, y);
    ghost var was := target.bitmap[..];
    BlitStream(target, image.raster.bitmap[..], lineBits, height, image.raster.cols, xOffset, yOffset, inverted);
    status := Ok;
    if image.raster.flow == FLOW_UP || image.raster.flow == FLOW_DOWN {
      forall l, t, row, k | Bearing(image, l) && Ascent(image, t) && 0 <= row < target.rows && 0 <= k < 8 * target.cols
        ensures TargetBit(target, target.bitmap[..], row, k) ==
                (TargetBit(target, was, row, k)
                 || ImageBitAt(image, image.raster.bitmap[..], SeenLine(image, target.rows - y - t, row), k - (x + l) * image.bitDepth))
      {
        DrawnAt(target, image, x, y, l, t, target.bitmap[..], was, image.raster.bitmap[..], row, k);
      }
    }
  }

  /** In the target's own direction, image line l lands on row y + l, clipped to the target, whatever the sign of y. */
  lemma {:induction false} PlacedInOrder(target: RasterMap, image: SbitImage, x: int, y: int, r: nat, k: int)
    requires ValidMap(target) && ValidImage(image) && Accepts(target, image, x, y)
    requires image.raster.flow == FLOW_DOWN && Placed(target, image, y).Fits() && r < target.rows
    ensures var p := Placed(target, image, y);
            var line := (if target.flow == FLOW_DOWN then r else target.rows - 1 - r) - p.y;
            ImageBit(image.raster.bitmap[..], image.raster.cols, LineBits(image), p, p.Lines(), r, k)
            <==> 0 <= line < image.raster.rows && 0 <= k < LineBits(image) && line * image.raster.cols + k / 8 < image.raster.bitmap.Length
                 && SourceBit(image.raster.bitmap[..], line * image.raster.cols, k)
  {
    var p := Placed(target, image, y);
    var line := (if target.flow == FLOW_DOWN then r else target.rows - 1 - r) - p.y;
    assert p.Sign() == 1;
    assert p.Skip() + p.LineAt(r) == line;
    assert 0 <= p.LineAt(r) < p.Lines() <==> 0 <= line < image.raster.rows;
  }
}
