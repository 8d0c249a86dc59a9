# SSD1306 display driver, modelled in Dafny

This project models the driver for an SSD1306 128x64 monochrome display
controller that sits on a two-wire (I2C) bus. The driver owns the bus and the
device address. Each display operation becomes a run of two-byte bus writes:
a control byte (`0x00` for a command, `0x40` for a display-memory byte)
followed by the payload. The driver's whole observable behaviour is that
sequence of writes and the result each operation returns. The model states
and proves both.

Modules, one per concern of `src/lib.rs`:

- `Bus` (`bus.dfy`): the transport and the error discipline.
  - `Transport` is a class. Its `trace` records every write issued, including
    a failing one.
  - Its constant `faults` map fixes which bus positions fail and with which
    error, so every failure pattern can be chosen.
  - `Exec` runs a script of writes and stops at the first failure.
  - `Ran(faults, before, after, script, r)` says that the trace went from
    `before` to `after` and the operation returned `r`, exactly as sending
    `script` prescribes.
  - `Outcome` plays the part of Rust's `Result<(), E>`. Dafny's `:-` plays the
    part of `?`.
- `Font` (`font.dfy`): the 27-row `FONT_5X8` table and the character-to-row
  rule of `write_char`.
- `Protocol` (`protocol.dfy`): framing (`Encode`/`Decode`) and, for every
  operation, the exact list of frames it sends when every write succeeds
  (`InitFrames`, `FillFrames`, `CursorFrames`, `CharFrames`, `TextFrames`).
- `Driver` (`ssd1306.dfy`): the class `Ssd1306` with the bus and the address.
  Each method is imperative, as in the source. Straight-line runs of
  `send_command` stay straight-line, and the loops of
  `fill_screen_with_value`, `write_char` and `draw_text` stay loops. Every
  method ensures `Ran(bus.faults, old(bus.trace), bus.trace, Wire(address,
  <its frames>), r)`, so the method:
  - sends its frames in order, each as one write to `address`;
  - stops at the first write that fails and returns that write's error
    unchanged;
  - returns `Ok` only when every write went through.

Behaviour of this revision worth knowing:

- `fill` paints `0x00` (all pixels off) and `clear` paints `0xFF` (all
  pixels on), the reverse of what the names suggest.
- The letter pattern `'A'..'Z'` (src/lib.rs:166) is half-open. `'Z'` draws
  nothing, and the font's last row (the `Z` glyph) can never be selected
  (`Font.ZRowUnreachable`).
- There are no digit glyphs and no lower-case mapping. Those characters are
  skipped like any other unmapped character.
- `draw_text` sets the window once, before the first glyph. The column span
  is `(text.len() * 5) as u8`, where `text.len()` counts UTF-8 bytes. There is
  no window per character and no line wrap.
- `init_display` sends 19 commands. It sends no memory-addressing-mode
  command and no clear at the end.
- The window commands of `fill_screen_with_value` and `set_cursor` begin with
  `0x20, 0x01` (set memory addressing mode, argument 1).

## Model

| member | source | states |
|---|---|---|
| Bus.Transport.Write | src/lib.rs:50 | one write appends exactly one transfer (address and bytes) to the trace and fails exactly when its bus position is a fault position, with that position's error |
| Bus.ExecStopsAtFirstFault | src/lib.rs:63-105 | a run issues a prefix of its script; it returns `Ok` iff no write in its range fails, and then it issued the whole script; otherwise the last write issued is the first failing one and its error is returned unchanged |
| Bus.RanStopsAtFirstFault | src/lib.rs:114-130 | the same discipline stated on traces: the new trace extends the old one by a prefix of the script; the result is `Ok` iff no write in range fails (then the whole script was sent), else the error of the last, first-failing write |
| Font.GlyphIndex | src/lib.rs:165-169 | every row the character rule selects lies inside the 27-row font table |
| Font.GlyphIndexInverse | src/lib.rs:165-167 | the rule maps `c` to row `i` iff `i < 26` and `c` is the character of row `i` (space for 0, `'A' + i - 1` otherwise): a bijection between space, `A`..`Y` and rows 0..25 |
| Font.ZRowUnreachable | src/lib.rs:166 | no character selects the last table row, the `Z` glyph |
| Font.Skipped | src/lib.rs:168 | a character is skipped iff it is neither space nor in `A`..`Y`; in particular `Z`, lower-case letters and digits are skipped |
| Font.SpaceIsBlank | src/lib.rs:6 | space selects row 0, whose five columns are all zero |
| Protocol.DecodeEncode | src/lib.rs:49-58 | an encoded command or data frame is one two-byte write to the given address that decodes back to the same frame |
| Protocol.EncodeDecode | src/lib.rs:49-58 | any write that decodes is exactly the encoding of what it decodes to |
| Protocol.WireDecodes | src/lib.rs:50 | a frame list goes out as one write per frame, each to the same address and decoding to its frame |
| Protocol.RanOnWire | src/lib.rs:44-46 | whatever a run of a frame list issued went to the driver's address, and its `i`-th write decodes to the `i`-th frame |
| Protocol.InitFramesListed | src/lib.rs:61-108 | initialisation is the 19 commands AE, A8, 3F, D3, 00, 40, A1, C8, DA, 12, 81, 7F, A4, A6, D5, 80, 8D, 14, AF in this order, with no data frame |
| Protocol.FillFramesShape | src/lib.rs:110-134 | a fill is the 8 commands 20, 01, 21, 00, 7F, 22, 00, 07 followed by 1024 data frames, every one carrying the fill value |
| Protocol.CursorFramesShape | src/lib.rs:146-162 | the cursor window is the 8 commands 20, 01, 21, col, col+len, 22, page, page |
| Protocol.CharFramesShape | src/lib.rs:164-177 | a skipped character sends nothing; a drawn one sends exactly the five bytes of its table row as data, in column order |
| Protocol.Drawn | src/lib.rs:182-185 | the characters a text draws are at most as many as the text has, and each of them selects a glyph |
| Protocol.GlyphFramesStream | src/lib.rs:182-185 | the glyph writes of a text are five data frames per drawn character, in text order: frame `j` is column `j % 5` of the glyph of drawn character `j / 5` |
| Protocol.TextFramesShape | src/lib.rs:179-187 | drawing a text sends one cursor window (8 commands) first and only data afterwards, `8 + 5 * (drawn characters)` frames in all |
| Protocol.DrawnAppend | src/lib.rs:182-185 | the characters drawn from two texts in a row are those drawn from the first followed by those drawn from the second |
| Protocol.DrawnKeepsMapped | src/lib.rs:165-168 | a text whose every character selects a glyph is drawn whole; one with no such character draws nothing |
| Protocol.Utf8Length | src/lib.rs:180 | the byte length `text.len()` of a text's UTF-8 encoding lies between one and four bytes per character |
| Protocol.Span | src/lib.rs:180 | the span is five times the UTF-8 byte length, truncated to eight bits: never more than it, congruent to it modulo 256, and equal to it when it fits in a byte |
| Protocol.SpanAscii | src/lib.rs:180 | on ASCII text the span is `5 * length mod 256`, exactly `5 * length` for up to 51 characters |
| Protocol.Utf8LengthAscii | src/lib.rs:180 | on ASCII text the byte length used for the span is the number of characters |
| Driver.Ssd1306.constructor | src/lib.rs:44-46 | the driver keeps the bus and the address it is given; both are constants of the object |
| Driver.Ssd1306.SendCommand | src/lib.rs:49-52 | exactly one write `[0x00, command]` to `address`; it fails exactly when the bus write fails, with the bus's error |
| Driver.Ssd1306.SendData | src/lib.rs:55-58 | exactly one write `[0x40, data]` to `address`; it fails exactly when the bus write fails, with the bus's error |
| Driver.Ssd1306.InitDisplay | src/lib.rs:61-108 | sends the initialisation frames in order and stops at the first failing write, returning its error |
| Driver.Ssd1306.FillScreenWithValue | src/lib.rs:110-134 | sends the full-window commands and the 8 x 128 data writes of the value, with the same stop-at-first-failure discipline |
| Driver.Ssd1306.Fill | src/lib.rs:136-139 | runs the fill with value 0x00 and passes on its result |
| Driver.Ssd1306.Clear | src/lib.rs:141-144 | runs the fill with value 0xFF and passes on its result |
| Driver.Ssd1306.SetCursor | src/lib.rs:146-162 | sends the cursor-window commands for `col`, `col + len` and `page`, with the same error discipline; requires `col + len` to fit in a byte |
| Driver.Ssd1306.WriteChar | src/lib.rs:164-177 | sends the glyph columns of the character, or nothing and `Ok` for a skipped character, stopping at the first failing write |
| Driver.Ssd1306.DrawText | src/lib.rs:179-187 | sends one cursor window with span `(UTF-8 length * 5) mod 256`, then the glyph columns of every character in order, stopping at the first failing write anywhere |

## Left out

- The `embedded_hal::i2c::I2c` trait and the bus peripheral are foreign. They
  are replaced by the recording `Transport`, whose failing positions are
  chosen when it is made. Electrical behaviour and timing are not modelled.
- Ownership of the bus: `new` moves the `I2C` value into the driver, so in
  Rust nothing else can write to it. Here the driver holds a shared
  `Transport` reference, and other code could write to the bus between driver
  calls. Every method's contract is stated relative to the trace at its call,
  so none depends on exclusive ownership; the model does not state it.
- The transport's error type `E` is generic in the source. Here it is the
  opaque `BusError` value, which the driver only passes back.
- `examples/hello_world.rs` is board bring-up, Wi-Fi, logging, delays and a
  demo loop, with no driver logic. It is not part of this model.
- Driver.Ssd1306.SetCursor: the `u8` sum `col + len` panics in a debug build
  and wraps in a release build. The model makes "it fits in a byte" a
  precondition and models neither outcome.
- Driver.Ssd1306.DrawText: requires `col + span` to fit in a byte, for the
  same reason, since it passes the span to `set_cursor`.
- Protocol.Span: `text.len() * 5` is computed as unbounded. The source's
  `usize` product could only overflow for texts longer than a fifth of the
  address space. The cast to `u8` is modelled exactly, as `% 256`.
- The commented-out spacer byte after each glyph (src/lib.rs:174) and the
  commented-out per-character cursor move (src/lib.rs:184) are not sent by
  the code and are not modelled.
