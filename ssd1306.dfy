/** The SSD1306 driver: an object that owns the bus and the device address,
    and turns each display operation into a run of two-byte writes.

    Every operation is specified by the script of writes it sends when all of
    them succeed (module `Protocol`) and by `Bus.Ran`: it sends that script
    in order and stops at the first write that fails, returning that write's
    error unchanged.  The address is a constant of the object, so every write
    of every operation goes to the address the driver was made with. */
module Driver {
  import opened Bus
  import opened Font
  import opened Protocol

  class Ssd1306 {
    const bus: Transport
    const address: uint8

    constructor (bus: Transport, address: uint8)
      ensures this.bus == bus && this.address == address
    {
      this.bus := bus;
      this.address := address;
    }

    /** `Bus.Next` for the `k`-th of `frames`, which is `f`, sent on this
        driver's transport. */
    lemma Step(t0: seq<Transfer>, frames: seq<Frame>, k: nat, f: Frame)
      requires k < |frames| && frames[k] == f
      requires SentPrefix(bus.faults, t0, bus.trace, Wire(address, frames), k)
      ensures |bus.trace| in bus.faults ==>
                Ran(bus.faults, t0, bus.trace + [Encode(address, f)], Wire(address, frames),
                    Err(bus.faults[|bus.trace|]))
      ensures |bus.trace| !in bus.faults ==>
                SentPrefix(bus.faults, t0, bus.trace + [Encode(address, f)], Wire(address, frames), k + 1)
    {
      Next(bus.faults, t0, bus.trace, Wire(address, frames), k);
    }

    /** One command byte: a single write `[0x00, command]` to `address`. */
    method SendCommand(command: uint8) returns (r: Outcome)
      modifies bus
      ensures bus.trace == old(bus.trace) + [Encode(address, Command(command))]
      ensures r == if |old(bus.trace)| in bus.faults then Err(bus.faults[|old(bus.trace)|]) else Ok
    {
      r := bus.Write(address, [CommandMode, command]);
    }

    /** One display-memory byte: a single write `[0x40, data]` to `address`. */
    method SendData(data: uint8) returns (r: Outcome)
      modifies bus
      ensures bus.trace == old(bus.trace) + [Encode(address, Data(data))]
      ensures r == if |old(bus.trace)| in bus.faults then Err(bus.faults[|old(bus.trace)|]) else Ok
    {
      r := bus.Write(address, [DataMode, data]);
    }

    method InitDisplay() returns (r: Outcome)
      modifies bus
      ensures Ran(bus.faults, old(bus.trace), bus.trace, Wire(address, InitFrames()), r)
    {
      ghost var t0, frames := bus.trace, InitFrames();
      InitFramesListed();
      // display off
      Step(t0, frames, 0, Command(0xAE)); :- SendCommand(0xAE);
      // multiplex ratio for 64 rows
      Step(t0, frames, 1, Command(0xA8)); :- SendCommand(0xA8);
      Step(t0, frames, 2, Command(0x3F)); :- SendCommand(0x3F);
      // display offset
      Step(t0, frames, 3, Command(0xD3)); :- SendCommand(0xD3);
      Step(t0, frames, 4, Command(0x00)); :- SendCommand(0x00);
      // display start line
      Step(t0, frames, 5, Command(0x40)); :- SendCommand(0x40);
      // segment remap
      Step(t0, frames, 6, Command(0xA1)); :- SendCommand(0xA1);
      // COM output scan direction
      Step(t0, frames, 7, Command(0xC8)); :- SendCommand(0xC8);
      // COM pins hardware configuration
      Step(t0, frames, 8, Command(0xDA)); :- SendCommand(0xDA);
      Step(t0, frames, 9, Command(0x12)); :- SendCommand(0x12);
      // contrast
      Step(t0, frames, 10, Command(0x81)); :- SendCommand(0x81);
      Step(t0, frames, 11, Command(0x7F)); :- SendCommand(0x7F);
      // output follows display memory
      Step(t0, frames, 12, Command(0xA4)); :- SendCommand(0xA4);
      // normal display
      Step(t0, frames, 13, Command(0xA6)); :- SendCommand(0xA6);
      // oscillator frequency
      Step(t0, frames, 14, Command(0xD5)); :- SendCommand(0xD5);
      Step(t0, frames, 15, Command(0x80)); :- SendCommand(0x80);
      // charge pump
      Step(t0, frames, 16, Command(0x8D)); :- SendCommand(0x8D);
      Step(t0, frames, 17, Command(0x14)); :- SendCommand(0x14);
      // display on
      Step(t0, frames, 18, Command(0xAF)); :- SendCommand(0xAF);
      Finish(bus.faults, t0, bus.trace, Wire(address, frames));
      r := Ok;
    }

    method FillScreenWithValue(value: uint8) returns (r: Outcome)
      modifies bus
      ensures Ran(bus.faults, old(bus.trace), bus.trace, Wire(address, FillFrames(value)), r)
    {
      ghost var t0, frames := bus.trace, FillFrames(value);
      FillFramesShape(value);
      // addressing mode
      Step(t0, frames, 0, Command(0x20)); :- SendCommand(0x20);
      Step(t0, frames, 1, Command(0x01)); :- SendCommand(0x01);
      // columns 0 to 127
      Step(t0, frames, 2, Command(0x21)); :- SendCommand(0x21);
      Step(t0, frames, 3, Command(0x00)); :- SendCommand(0x00);
      Step(t0, frames, 4, Command(0x7F)); :- SendCommand(0x7F);
      // pages 0 to 7
      Step(t0, frames, 5, Command(0x22)); :- SendCommand(0x22);
      Step(t0, frames, 6, Command(0x00)); :- SendCommand(0x00);
      Step(t0, frames, 7, Command(0x07)); :- SendCommand(0x07);
      ghost var k := |FullWindow|;
      for p := 0 to Pages
        invariant k == |FullWindow| + p * Columns
        invariant SentPrefix(bus.faults, t0, bus.trace, Wire(address, frames), k)
      {
        for c := 0 to Columns
          invariant k == |FullWindow| + p * Columns + c
          invariant SentPrefix(bus.faults, t0, bus.trace, Wire(address, frames), k)
        {
          Step(t0, frames, k, Data(value)); :- SendData(value);
          k := k + 1;
        }
      }
      Finish(bus.faults, t0, bus.trace, Wire(address, frames));
      r := Ok;
    }

    /** Paints every column of every page with 0x00. */
    method Fill() returns (r: Outcome)
      modifies bus
      ensures Ran(bus.faults, old(bus.trace), bus.trace, Wire(address, FillFrames(0x00)), r)
    {
      r := FillScreenWithValue(0x00);
    }

    /** Paints every column of every page with 0xFF. */
    method Clear() returns (r: Outcome)
      modifies bus
      ensures Ran(bus.faults, old(bus.trace), bus.trace, Wire(address, FillFrames(0xFF)), r)
    {
      r := FillScreenWithValue(0xFF);
    }

    method SetCursor(col: uint8, page: uint8, len: uint8) returns (r: Outcome)
      requires col + len < 256
      modifies bus
      ensures Ran(bus.faults, old(bus.trace), bus.trace, Wire(address, CursorFrames(col, page, len)), r)
    {
      ghost var t0, frames := bus.trace, CursorFrames(col, page, len);
      CursorFramesShape(col, page, len);
      // addressing mode
      Step(t0, frames, 0, Command(0x20)); :- SendCommand(0x20);
      Step(t0, frames, 1, Command(0x01)); :- SendCommand(0x01);
      // columns
      Step(t0, frames, 2, Command(0x21)); :- SendCommand(0x21);
      Step(t0, frames, 3, Command(col)); :- SendCommand(col);
      Step(t0, frames, 4, Command(col + len)); :- SendCommand(col + len);
      // page
      Step(t0, frames, 5, Command(0x22)); :- SendCommand(0x22);
      Step(t0, frames, 6, Command(page)); :- SendCommand(page);
      Step(t0, frames, 7, Command(page)); :- SendCommand(page);
      Finish(bus.faults, t0, bus.trace, Wire(address, frames));
      r := Ok;
    }

    method WriteChar(c: char) returns (r: Outcome)
      modifies bus
      ensures Ran(bus.faults, old(bus.trace), bus.trace, Wire(address, CharFrames(c)), r)
    {
      ghost var t0, frames := bus.trace, CharFrames(c);
      var index;
      match GlyphIndex(c) {
        case Some(i) => index := i;
        case None => return Ok;
      }
      var glyph := Font5x8[index];
      for i := 0 to |glyph|
        invariant SentPrefix(bus.faults, t0, bus.trace, Wire(address, frames), i)
      {
        Step(t0, frames, i, Data(glyph[i])); :- SendData(glyph[i]);
      }
      Finish(bus.faults, t0, bus.trace, Wire(address, frames));
      r := Ok;
    }

    method DrawText(text: string, col: uint8, page: uint8) returns (r: Outcome)
      requires col + Span(text) < 256
      modifies bus
      ensures Ran(bus.faults, old(bus.trace), bus.trace, Wire(address, TextFrames(text, col, page)), r)
    {
      ghost var t0, script := bus.trace, Wire(address, TextFrames(text, col, page));
      ghost var window := CursorFrames(col, page, Span(text));
      WirePrefix(address, window, TextFrames(text, col, page));
      Chain(bus.faults, t0, t0, [], Wire(address, window), script);
      :- SetCursor(col, page, Span(text));
      assert [] + Wire(address, window) == Wire(address, window + GlyphFrames(text[..0]));
      for i := 0 to |text|
        invariant Ran(bus.faults, t0, bus.trace, Wire(address, window + GlyphFrames(text[..i])), Ok)
      {
        ghost var done := Wire(address, window + GlyphFrames(text[..i]));
        DrawnSoFar(address, text, col, page, i);
        Chain(bus.faults, t0, bus.trace, done, Wire(address, CharFrames(text[i])), script);
        :- WriteChar(text[i]);
      }
      assert text[..|text|] == text;
      r := Ok;
    }
  }

  /** `draw_text` after `i` characters: the writes so far followed by those of
      character `i` are the writes for `i + 1` characters, a prefix of the
      whole script. */
  lemma DrawnSoFar(address: uint8, text: string, col: uint8, page: uint8, i: nat)
    requires col + Span(text) < 256
    requires i < |text|
    ensures var window := CursorFrames(col, page, Span(text));
      && Wire(address, window + GlyphFrames(text[..i])) + Wire(address, CharFrames(text[i]))
           == Wire(address, window + GlyphFrames(text[..i + 1]))
      && Wire(address, window + GlyphFrames(text[..i + 1])) <= Wire(address, TextFrames(text, col, page))
  {
    var window := CursorFrames(col, page, Span(text));
    assert text[..i + 1][..i] == text[..i];
    assert GlyphFrames(text[..i + 1]) == GlyphFrames(text[..i]) + CharFrames(text[i]);
    AppendAssoc(window, GlyphFrames(text[..i]), CharFrames(text[i]));
    WireAppend(address, window + GlyphFrames(text[..i]), CharFrames(text[i]));
    assert text[..i + 1] + text[i + 1..] == text;
    GlyphFramesAppend(text[..i + 1], text[i + 1..]);
    WirePrefix(address, window + GlyphFrames(text[..i + 1]), TextFrames(text, col, page));
  }
}
