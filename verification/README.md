# LCD_1inch14 bus protocol, modelled in Dafny

This project models the bus protocol of the `LCD_1inch14` driver for the
1.14" 240×135 RGB565 panel (an ST7789-style controller on a 4-wire serial bus).
The hardware is an append-only trace of events: `CS(level)` (chip-select, active
low), `DC(level)` (low = command, high = data), `RST(level)`, `Delay(ms)` and
`Write(bytes)`. Each driver operation is a pure function producing its trace
fragment:

- `bus.dfy` (`Bus`): events, the one-transaction framing
  (deselect, set DC, select, transfer, deselect), `Encode` of a transaction list
  and its inverse `Decode`, the `Disciplined` predicate (DC is set just before
  every CS assertion, every transfer sits inside one select interval, the trace
  ends deselected), and `SelectCount`, the number of CS assertions.
- `controller.dfy` (`Controller`): an independent reference model, depending only on `Bus`, of the
  receiving controller. Command-mode bytes start new commands. Data-mode bytes
  are parameters of the latest command. Transfers while deselected or in reset
  are ignored. Pulling reset low discards what was received.
  The driver's traces are proved against this meaning.
- `lcd.dfy` (`Lcd`): the driver. It holds the geometry constants, `write_cmd`,
  `write_data`, `reset`, and the initialization program as a typed table of
  (opcode, parameter bytes). It also holds `init_display`, construction, the
  hard-coded address windows, and `show`.
- `lcd_properties.dfy` (`LcdProperties`): the properties of those traces.

The frame buffer is an opaque byte sequence. Drawing code (the external
frame-buffer library) may replace it with one of the same length between flushes.

## Model

| member | source | states |
|---|---|---|
| Bus.LowByte | Pico-LCD-1.14/lib/lcd_1inch14.py:68 | `v & 0xFF` is the unique byte congruent to `v` mod 256; values already in byte range pass unchanged |
| Bus.DecodeEncode | Pico-LCD-1.14/lib/lcd_1inch14.py:64-76 | any list of command/data transactions is recovered exactly from its trace |
| Bus.EncodeDecode | Pico-LCD-1.14/lib/lcd_1inch14.py:64-76 | a trace that parses is exactly the concatenation of the frames of its parse |
| Bus.DecodedIsDisciplined | Pico-LCD-1.14/lib/lcd_1inch14.py:64-76 | every parseable trace sets DC right before each CS assertion, gates each transfer by one select interval and ends with CS released |
| Bus.SelectCountEncode | Pico-LCD-1.14/lib/lcd_1inch14.py:64-76 | each transaction asserts chip-select exactly once |
| Controller.RunFrame | Pico-LCD-1.14/lib/lcd_1inch14.py:64-76 | one framed transaction delivers its payload in the mode its DC level announces and leaves the controller deselected |
| Controller.ReleasedAtEnd | Pico-LCD-1.14/lib/lcd_1inch14.py:69 | a disciplined trace leaves chip-select deasserted |
| Lcd.WriteCmd | Pico-LCD-1.14/lib/lcd_1inch14.py:64-69 | `write_cmd` is CS=1, DC=0, CS=0, one write of one byte congruent to `cmd` mod 256, CS=1 |
| Lcd.WriteData | Pico-LCD-1.14/lib/lcd_1inch14.py:71-76 | `write_data` is the same shape with DC=1 |
| Lcd.BulkWrite | Pico-LCD-1.14/lib/lcd_1inch14.py:183-187 | the bulk transfer is CS=1, DC=1, CS=0, one write of the whole payload, CS=1: it parses as exactly one data transaction, is disciplined and asserts chip-select once |
| Lcd.Construct | Pico-LCD-1.14/lib/lcd_1inch14.py:25-56 | construction allocates a zeroed buffer of `height * width * 2` bytes |
| Lcd.Draw | Pico-LCD-1.14/lib/lcd_1inch14.py:45-47 | drawing replaces the buffer's contents and keeps its size |
| LcdProperties.WriteCmdTransaction | Pico-LCD-1.14/lib/lcd_1inch14.py:64-69 | `write_cmd` parses as exactly one command transaction of its low byte, is disciplined, asserts CS once, and sends the same trace for values that agree modulo 256 |
| LcdProperties.WriteDataTransaction | Pico-LCD-1.14/lib/lcd_1inch14.py:71-76 | `write_data` parses as exactly one data transaction of its low byte, is disciplined, asserts CS once |
| LcdProperties.WriteCmdReceived | Pico-LCD-1.14/lib/lcd_1inch14.py:64-69 | the controller receives the masked opcode as a new parameterless command |
| LcdProperties.SendArgsReceived | Pico-LCD-1.14/lib/lcd_1inch14.py:91-158 | parameter bytes sent one `write_data` each arrive in order as parameters of the current command |
| LcdProperties.SendReceived | Pico-LCD-1.14/lib/lcd_1inch14.py:90-91 | one opcode followed by its data writes arrives as exactly that command with those parameters |
| LcdProperties.SendAllReceived | Pico-LCD-1.14/lib/lcd_1inch14.py:90-162 | a register program sent out of reset is received exactly and in order, and leaves CS released |
| LcdProperties.SendAllFraming | Pico-LCD-1.14/lib/lcd_1inch14.py:90-162 | a register program's trace parses as its command-then-data transactions, is disciplined, and asserts CS once per transaction |
| LcdProperties.ResetPulse | Pico-LCD-1.14/lib/lcd_1inch14.py:78-84 | `reset` drives RST high, low, high with a 10 ms hold after each change and always ends high |
| LcdProperties.InitDisplayConfigures | Pico-LCD-1.14/lib/lcd_1inch14.py:86-162 | from any prior state `init_display` leaves the controller out of reset, deselected, holding exactly the initialization program, so every call has the same effect |
| LcdProperties.InitDisplayFraming | Pico-LCD-1.14/lib/lcd_1inch14.py:86-162 | `init_display` is the reset pulse followed by nothing but the program's well-formed transactions |
| LcdProperties.InitProgramEnding | Pico-LCD-1.14/lib/lcd_1inch14.py:160-162 | the program ends with bare 0x21, 0x11, 0x29, and the trace ends with their three command transactions and no data |
| LcdProperties.SendFraming | Pico-LCD-1.14/lib/lcd_1inch14.py:90-158 | one register write parses as its opcode transaction followed by exactly one one-byte data transaction per parameter, in order |
| LcdProperties.GammaTables | Pico-LCD-1.14/lib/lcd_1inch14.py:128-158 | opcodes 0xE0 and 0xE1 carry exactly 14 parameter bytes each, with the literal table values (so, by `SendFraming`, 14 data transactions each) |
| LcdProperties.ConstructReady | Pico-LCD-1.14/lib/lcd_1inch14.py:30-56 | construction starts with CS high and, from any state, leaves the controller configured, deselected and out of reset |
| LcdProperties.WindowRoundTrip | Pico-LCD-1.14/lib/lcd_1inch14.py:166-178 | the 16-bit big-endian window encoding decodes back to its bounds |
| LcdProperties.WindowBytesRoundTrip | Pico-LCD-1.14/lib/lcd_1inch14.py:166-178 | any 4 window bytes are re-encoded from their decoded bounds |
| LcdProperties.WindowMatchesGeometry | Pico-LCD-1.14/lib/lcd_1inch14.py:166-178 | column bytes 00 28 01 17 decode to 40..279 (240 = width), row bytes 00 35 00 BB to 53..187 (135 = height) |
| LcdProperties.ShowFraming | Pico-LCD-1.14/lib/lcd_1inch14.py:164-187 | `show` parses as column window, row window, bare memory-write, then one data transaction whose single write is the whole buffer (64800 bytes); 12 CS assertions in all |
| LcdProperties.ShowWindowIndependent | Pico-LCD-1.14/lib/lcd_1inch14.py:166-181 | the address-window part of `show` is the same for every buffer |
| LcdProperties.ShowReceived | Pico-LCD-1.14/lib/lcd_1inch14.py:164-187 | the controller receives the two windows, then a memory write whose parameters are literally the current buffer |
| LcdProperties.ConstructDrawShow | Pico-LCD-1.14/lib/lcd_1inch14.py:46-187 | construct, draw, flush: the panel holds the init program then a memory write of exactly the drawn pixels; an all-0xFF buffer is sent as one 64800-byte write |

The gamma tables have 14 parameter bytes each in the code
(`lcd_1inch14.py:128-158`); the model follows the code.

## Left out

- `Pico-LCD-1.14/main.py`: demo UI and button polling loop. This is board I/O with no protocol logic.
- `setup_backlight`: PWM configuration of a hardware peripheral, outside the bus protocol.
- Frame-buffer drawing (`fill`, `text`, `rect`, `hline`, ...): an external library. `Draw` replaces the buffer wholesale, and the pixel byte order it uses is not modelled.
- Colour constants (`red`, `green`, ...): bare literals with no protocol role.
- SPI construction parameters (bus id, baud rate, polarity, phase, pin numbers) and the `bl_pin` attribute: configuration with no effect on the event order.
- Real timing: delays are symbolic `Delay(10)` events. Blocking and the duration of transfers are not modelled.
- The controller's register semantics (what each opcode configures) are not modelled. The reference controller only records which commands and parameters it received.
