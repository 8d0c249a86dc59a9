/** The controller's byte protocol, and the exact sequence of bus writes each
    driver operation sends when every write succeeds.

    Every interaction with the controller is one two-byte write: a control
    byte, `0x00` for a command byte or `0x40` for a display-memory byte,
    followed by the payload.  A multi-byte controller command (an opcode and
    its arguments) is therefore several independent writes. */
module Protocol {
  import opened Bus
  import opened Font

  const CommandMode: uint8 := 0x00
  const DataMode: uint8 := 0x40

  /** What one write means to the controller. */
  datatype Frame = Command(payload: uint8) | Data(payload: uint8)

  function Encode(address: uint8, f: Frame): Transfer {
    Transfer(address, [if f.Command? then CommandMode else DataMode, f.payload])
  }

  /** Reads a write back as the controller would; `None` for a write that is
      not a two-byte command or data write. */
  function Decode(t: Transfer): Option<Frame> {
    if |t.bytes| == 2 && t.bytes[0] == CommandMode then Some(Command(t.bytes[1]))
    else if |t.bytes| == 2 && t.bytes[0] == DataMode then Some(Data(t.bytes[1]))
    else None
  }

  /** Framing round-trips: an encoded frame is a two-byte write to the given
      address that decodes to the same frame, and a write that decodes is the
      encoding of what it decodes to. */
  lemma DecodeEncode(address: uint8, f: Frame)
    ensures Decode(Encode(address, f)) == Some(f)
    ensures Encode(address, f).address == address && |Encode(address, f).bytes| == 2
  {
  }

  lemma EncodeDecode(t: Transfer)
    ensures Decode(t).Some? ==> Encode(t.address, Decode(t).value) == t
  {
    if Decode(t).Some? {
      assert t.bytes == [t.bytes[0], t.bytes[1]];
    }
  }

  /** The writes that carry `frames` to the device at `address`: one write per
      frame, all to `address`, each decoding to its frame. */
  function Wire(address: uint8, frames: seq<Frame>): seq<Transfer> {
    seq(|frames|, i requires 0 <= i < |frames| => Encode(address, frames[i]))
  }

  lemma WireDecodes(address: uint8, frames: seq<Frame>)
    ensures |Wire(address, frames)| == |frames|
    ensures forall i :: 0 <= i < |frames| ==>
              Wire(address, frames)[i].address == address && Decode(Wire(address, frames)[i]) == Some(frames[i])
  {
  }

  lemma WireAppend(address: uint8, x: seq<Frame>, y: seq<Frame>)
    ensures Wire(address, x + y) == Wire(address, x) + Wire(address, y)
  {
  }

  lemma WirePrefix(address: uint8, x: seq<Frame>, y: seq<Frame>)
    requires x <= y
    ensures Wire(address, x) <= Wire(address, y)
  {
    assert y == x + y[|x|..];
    WireAppend(address, x, y[|x|..]);
  }

  /** Whatever a run of `Wire(address, frames)` issued went to `address`, and
      its `i`-th write decodes to the `i`-th frame. */
  lemma RanOnWire(faults: map<nat, BusError>, before: seq<Transfer>, after: seq<Transfer>,
                  address: uint8, frames: seq<Frame>, r: Outcome)
    requires Ran(faults, before, after, Wire(address, frames), r)
    ensures |after| - |before| <= |frames|
    ensures forall i :: |before| <= i < |after| ==>
              after[i].address == address && Decode(after[i]) == Some(frames[i - |before|])
  {
    RanStopsAtFirstFault(faults, before, after, Wire(address, frames), r);
    forall i | |before| <= i < |after|
      ensures after[i].address == address && Decode(after[i]) == Some(frames[i - |before|])
    {
      assert after[i] == after[|before|..][i - |before|];
    }
  }

  function Commands(bytes: seq<uint8>): seq<Frame> {
    seq(|bytes|, i requires 0 <= i < |bytes| => Command(bytes[i]))
  }

  function DataFrames(bytes: seq<uint8>): seq<Frame> {
    seq(|bytes|, i requires 0 <= i < |bytes| => Data(bytes[i]))
  }

  // ---------------------------------------------------------------- init

  /** The bring-up sequence for a 128x64 panel. */
  const InitSequence: seq<uint8> := [
    0xAE,         // display off
    0xA8, 0x3F,   // multiplex ratio 64
    0xD3, 0x00,   // display offset 0
    0x40,         // display start line 0
    0xA1,         // segment remap
    0xC8,         // COM output scan direction remapped
    0xDA, 0x12,   // COM pins hardware configuration
    0x81, 0x7F,   // contrast
    0xA4,         // output follows display memory
    0xA6,         // normal, not inverted
    0xD5, 0x80,   // oscillator frequency
    0x8D, 0x14,   // charge pump on
    0xAF          // display on
  ]

  /** `init_display`: nineteen command writes in the order above, and no data
      write. */
  function InitFrames(): seq<Frame> {
    Commands(InitSequence)
  }

  /** The bring-up writes one by one. */
  lemma InitFramesListed()
    ensures |InitFrames()| == 19
    ensures InitFrames()[0] == Command(0xAE)
    ensures InitFrames()[1] == Command(0xA8)
    ensures InitFrames()[2] == Command(0x3F)
    ensures InitFrames()[3] == Command(0xD3)
    ensures InitFrames()[4] == Command(0x00)
    ensures InitFrames()[5] == Command(0x40)
    ensures InitFrames()[6] == Command(0xA1)
    ensures InitFrames()[7] == Command(0xC8)
    ensures InitFrames()[8] == Command(0xDA)
    ensures InitFrames()[9] == Command(0x12)
    ensures InitFrames()[10] == Command(0x81)
    ensures InitFrames()[11] == Command(0x7F)
    ensures InitFrames()[12] == Command(0xA4)
    ensures InitFrames()[13] == Command(0xA6)
    ensures InitFrames()[14] == Command(0xD5)
    ensures InitFrames()[15] == Command(0x80)
    ensures InitFrames()[16] == Command(0x8D)
    ensures InitFrames()[17] == Command(0x14)
    ensures InitFrames()[18] == Command(0xAF)
  {
  }

  // ---------------------------------------------------------------- fill

  /** Addressing window for the whole panel: command 0x20 with argument 0x01,
      columns 0 to 127 (0x21), pages 0 to 7 (0x22). */
  const FullWindow: seq<uint8> := [0x20, 0x01, 0x21, 0x00, 0x7F, 0x22, 0x00, 0x07]

  const Columns: nat := 128
  const Pages: nat := 8

  /** `fill_screen_with_value(v)`. */
  function FillFrames(v: uint8): seq<Frame> {
    Commands(FullWindow) + DataFrames(seq(Pages * Columns, _ => v))
  }

  /** The fill sends the eight window commands and then 8 x 128 = 1024 data
      writes, every one of them carrying `v`. */
  lemma FillFramesShape(v: uint8)
    ensures |FillFrames(v)| == |FullWindow| + 1024
    ensures FillFrames(v)[0] == Command(0x20)
    ensures FillFrames(v)[1] == Command(0x01)
    ensures FillFrames(v)[2] == Command(0x21)
    ensures FillFrames(v)[3] == Command(0x00)
    ensures FillFrames(v)[4] == Command(0x7F)
    ensures FillFrames(v)[5] == Command(0x22)
    ensures FillFrames(v)[6] == Command(0x00)
    ensures FillFrames(v)[7] == Command(0x07)
    ensures forall i :: |FullWindow| <= i < |FillFrames(v)| ==> FillFrames(v)[i] == Data(v)
  {
  }

  // ---------------------------------------------------------------- cursor

  /** `set_cursor(col, page, len)`: the window covers columns `col` to
      `col + len` (both inclusive, as the controller reads them) on the single
      page `page`.  The sum is a `u8` in the source; overflowing it is
      excluded by the precondition. */
  function CursorFrames(col: uint8, page: uint8, len: uint8): seq<Frame>
    requires col + len < 256
  {
    Commands([0x20, 0x01, 0x21, col, col + len, 0x22, page, page])
  }

  lemma CursorFramesShape(col: uint8, page: uint8, len: uint8)
    requires col + len < 256
    ensures var fs := CursorFrames(col, page, len);
      && |fs| == 8
      && fs[0] == Command(0x20) && fs[1] == Command(0x01)
      && fs[2] == Command(0x21) && fs[3] == Command(col) && fs[4] == Command(col + len)
      && fs[5] == Command(0x22) && fs[6] == Command(page) && fs[7] == Command(page)
  {
  }

  // ---------------------------------------------------------------- text

  /** `write_char(c)`: the five columns of the glyph `c` selects, as data, or
      nothing at all for a skipped character. */
  function CharFrames(c: char): seq<Frame> {
    match GlyphIndex(c)
    case Some(i) => DataFrames(Font5x8[i])
    case None => []
  }

  lemma CharFramesShape(c: char)
    ensures GlyphIndex(c).None? <==> CharFrames(c) == []
    ensures GlyphIndex(c).Some? ==>
              |CharFrames(c)| == 5
              && forall j :: 0 <= j < 5 ==> CharFrames(c)[j] == Data(Font5x8[GlyphIndex(c).value][j])
  {
  }

  /** The glyph writes for a whole text, character after character. */
  function GlyphFrames(text: string): seq<Frame>
    decreases |text|
  {
    if text == [] then []
    else GlyphFrames(text[..|text| - 1]) + CharFrames(text[|text| - 1])
  }

  /** The characters of `text` that draw something, in order. */
  function Drawn(text: string): (d: string)
    ensures |d| <= |text|
    ensures forall i :: 0 <= i < |d| ==> GlyphIndex(d[i]).Some?
    decreases |text|
  {
    if text == [] then []
    else
      var c := text[|text| - 1];
      Drawn(text[..|text| - 1]) + if GlyphIndex(c).Some? then [c] else []
  }

  /** Drawing two texts one after the other draws the characters of each. */
  lemma {:induction false} DrawnAppend(x: string, y: string)
    ensures Drawn(x + y) == Drawn(x) + Drawn(y)
    decreases |y|
  {
    if y == [] {
      assert x + y == x;
    } else {
      var y', c := y[..|y| - 1], y[|y| - 1];
      assert (x + y)[..|x + y| - 1] == x + y' && (x + y)[|x + y| - 1] == c;
      DrawnAppend(x, y');
      var tail := if GlyphIndex(c).Some? then [c] else [];
      AppendAssoc(Drawn(x), Drawn(y'), tail);
    }
  }

  /** A character is kept exactly when it selects a glyph: a text whose every
      character is mapped is drawn whole, and one with no mapped character
      draws nothing. */
  lemma {:induction false} DrawnKeepsMapped(text: string)
    ensures (forall i :: 0 <= i < |text| ==> GlyphIndex(text[i]).Some?) ==> Drawn(text) == text
    ensures (forall i :: 0 <= i < |text| ==> GlyphIndex(text[i]).None?) ==> Drawn(text) == []
    decreases |text|
  {
    if text != [] {
      var pre := text[..|text| - 1];
      assert forall i :: 0 <= i < |pre| ==> pre[i] == text[i];
      DrawnKeepsMapped(pre);
      assert pre + [text[|text| - 1]] == text;
    }
  }

  /** `text.len()`: the length of the text's UTF-8 encoding in bytes, one to
      four bytes per character. */
  function Utf8Length(text: string): (n: nat)
    ensures |text| <= n <= 4 * |text|
    decreases |text|
  {
    if text == [] then 0
    else
      var c := text[|text| - 1] as int;
      Utf8Length(text[..|text| - 1])
        + if c < 0x80 then 1 else if c < 0x800 then 2 else if c < 0x1_0000 then 3 else 4
  }

  /** On ASCII text, the byte length is the number of characters. */
  lemma {:induction false} Utf8LengthAscii(text: string)
    requires forall i :: 0 <= i < |text| ==> text[i] as int < 0x80
    ensures Utf8Length(text) == |text|
    decreases |text|
  {
    if text != [] {
      Utf8LengthAscii(text[..|text| - 1]);
    }
  }

  /** The window width `draw_text` asks for: `(text.len() * 5) as u8`, a
      truncation to eight bits. */
  function Span(text: string): (s: uint8)
    ensures s <= Utf8Length(text) * 5 && (Utf8Length(text) * 5 - s) % 256 == 0
    ensures Utf8Length(text) * 5 < 256 ==> s == Utf8Length(text) * 5
  {
    (Utf8Length(text) * 5) % 256
  }

  /** On ASCII text the span is five columns per character, truncated to
      eight bits. */
  lemma SpanAscii(text: string)
    requires forall i :: 0 <= i < |text| ==> text[i] as int < 0x80
    ensures Span(text) == (5 * |text|) % 256
    ensures |text| <= 51 ==> Span(text) == 5 * |text|
  {
    Utf8LengthAscii(text);
  }

  /** `draw_text(text, col, page)`: one window, then the glyphs. */
  function TextFrames(text: string, col: uint8, page: uint8): seq<Frame>
    requires col + Span(text) < 256
  {
    CursorFrames(col, page, Span(text)) + GlyphFrames(text)
  }

  lemma {:induction false} GlyphFramesAppend(x: string, y: string)
    ensures GlyphFrames(x + y) == GlyphFrames(x) + GlyphFrames(y)
    decreases |y|
  {
    if y == [] {
      assert x + y == x;
    } else {
      var y', c := y[..|y| - 1], y[|y| - 1];
      assert (x + y)[..|x + y| - 1] == x + y' && (x + y)[|x + y| - 1] == c;
      GlyphFramesAppend(x, y');
      var a, b, d := GlyphFrames(x), GlyphFrames(y'), CharFrames(c);
      assert GlyphFrames(x + y) == (a + b) + d;
      assert GlyphFrames(y) == b + d;
      AppendAssoc(a, b, d);
    }
  }

  /** The glyph writes of a text are exactly five data writes per drawn
      character: write `j` is column `j % 5` of the glyph of drawn character
      `j / 5`. */
  lemma {:induction false} GlyphFramesStream(text: string)
    ensures |GlyphFrames(text)| == 5 * |Drawn(text)|
    ensures forall j :: 0 <= j < |GlyphFrames(text)| ==>
              GlyphFrames(text)[j] == Data(Font5x8[GlyphIndex(Drawn(text)[j / 5]).value][j % 5])
    decreases |text|
  {
    if text != [] {
      var pre, c := text[..|text| - 1], text[|text| - 1];
      GlyphFramesStream(pre);
      CharFramesShape(c);
      var m := |Drawn(pre)|;
      forall j | 0 <= j < |GlyphFrames(text)|
        ensures GlyphFrames(text)[j] == Data(Font5x8[GlyphIndex(Drawn(text)[j / 5]).value][j % 5])
      {
        if j < 5 * m {
          assert j / 5 < m;
        } else {
          assert j / 5 == m && j % 5 == j - 5 * m;
        }
      }
    }
  }

  /** `draw_text` sets the window once, at the start, and never again: the
      eight cursor commands are followed only by data writes, five for each
      drawn character. */
  lemma TextFramesShape(text: string, col: uint8, page: uint8)
    requires col + Span(text) < 256
    ensures |TextFrames(text, col, page)| == 8 + 5 * |Drawn(text)|
    ensures TextFrames(text, col, page)[..8] == CursorFrames(col, page, Span(text))
    ensures forall i :: 8 <= i < |TextFrames(text, col, page)| ==> TextFrames(text, col, page)[i].Data?
  {
    GlyphFramesStream(text);
  }
}
