# nutbot: the DCA frame decoder, the frame buffer and playback

nutbot is a chat bot that plays a pre-encoded clip in a user's voice channel
when a message starts with a known command. This project models its core
(`main.go`) and proves properties of the model:

- **Frame decoder** (`loadSound`). A `.dca` clip is a headerless sequence of
  records: a 16-bit little-endian signed length, then that many bytes of opaque
  Opus payload. The decoder appends each frame to a process-wide buffer.
  The end of input while reading a length is a normal stop. This covers no byte
  left (`io.EOF`) and one stray byte (`io.ErrUnexpectedEOF`). A payload shorter
  than its length is a read error. Frames decoded before an error stay in the
  buffer.
- **Frame buffer** (`buffer`, `clearBuffer`). This is one mutable sequence of
  frames. Only the decoder appends to it. `clearBuffer` empties it.
- **Playback** (`playSound`). It joins the voice channel and calls
  `Speaking(true)`. It then sends every buffered frame on the connection's
  `OpusSend` channel, calls `Speaking(false)` and disconnects. The first step
  that fails ends the attempt with that step's error.
- **Dispatch** (`messageCreate`). It ignores the bot's own messages. It looks for
  a command that is a prefix of the content and takes `content[1:]` as the sound
  name. It uses the first voice state of the author in the guild as the
  channel. It then loads, plays and clears, but clears only when the load
  succeeded.

Files and modules:

- `dca.dfy`, module `Dca`. The byte-level format: `Int16LE` and `Decode` (the read
  loop as a function), the reference encoder `Encode`, and the decoding lemmas.
- `voice.dfy`, module `Voice`. The calls made on a voice connection (`VoiceCall`),
  the given success or failure of each step (`VoiceResults`), `Play` (what
  `playSound` issues and returns), and the lemmas on what is sent and in which order.
- `dispatch.dfy`, module `Dispatch`. The selection logic of `messageCreate`, as
  `Decide`.
- `bot.dfy`, module `Nutbot`. Class `Bot` holds the global `buffer` and the
  append-only log of voice calls. Three of its methods loop, with invariants:
  `LoadSound`, `PlaySound` and `MessageCreate`. Each is proved equal to a
  specification function: `Load`, `Play` and `Handle` in that order. The lemmas
  about those functions state what the source promises. `ClearBuffer` has no
  loop; it ensures that the buffer is empty.
- `seqs.dfy`, module `Seqs`. Two concatenation facts used by the proofs.

Inputs that the source gets from outside are parameters:

- the files `os.Open` can open: a `map` from path to bytes; a missing path means
  the open fails;
- whether closing the clip file succeeds;
- the command list, or `None` when the commands file cannot be opened;
- the guild of the message's channel, or `None` when either state lookup fails;
- whether each voice step succeeds.

Go runtime panics are modelled as outcomes that end the handler:

- `LengthPanic`: a length with the high bit set, where `make([]byte, opuslen)`
  panics.
- `EmptyContentPanic`: `content[1:]` on empty content. This happens when an
  empty command, from a blank line of the commands file, matches empty content.

Two behaviours of the code are easy to miss, and the model keeps both:

- The length prefix is a signed `int16` (main.go:172). A prefix whose high byte
  is 0x80 or more is negative, and `make` then panics. No frame is longer than
  32767 bytes.
- Frames left by a failed load are not cleared. The load returns before
  `clearBuffer` (main.go:127-129), so the next successful playback sends them
  first (`StaleFramesReplayed`).

## Model

| member | source | states |
|---|---|---|
| `Dca.Int16LE` | main.go:172-176 | The length prefix is the two's complement little-endian int16, in -32768..32767; it is negative exactly when the high byte has its top bit set |
| `Dca.Header` | main.go:176 | The two-byte prefix written for a length 0..32767 reads back as that length |
| `Dca.HeaderOfInt16` | main.go:176 | Every non-negative prefix is the header of the length it declares (the other direction of the round trip) |
| `Dca.Decode` | main.go:174-204 | Every decoded frame has a length that a non-negative int16 can declare |
| `Dca.DecodeSplits` | main.go:174-204 | The input is exactly the encoding of the decoded frames followed by a tail that stops the loop: at most one stray byte for a normal end, a negative length, or a length exceeding the rest |
| `Dca.DecodeRecord` | main.go:192-203 | A whole record yields its payload, byte for byte, as the next frame, and decoding resumes right after it |
| `Dca.DecodeAfterFrames` | main.go:174-204 | After the encoding of any frames, decoding yields exactly those frames in order, then what the remaining tail yields |
| `Dca.DecodeEncode` | main.go:174-204 | Round trip: a well-formed clip decodes to exactly its frames and ends normally |
| `Dca.DecodeStopsAtBoundary` | main.go:176-185 | A clip ending at a record boundary, or one stray byte after it, yields only its complete frames and ends normally |
| `Dca.DecodeTruncatedFrame` | main.go:193-200 | A declared length beyond the remaining bytes stops with a read error; the earlier frames are kept, and no partial frame is |
| `Dca.DecodeNegativeLength` | main.go:172-193 | A length with the high bit set stops decoding in the panic case; the earlier frames are kept |
| `Dca.DecodeEmptyFrame` | main.go:193-203 | A zero length is legal: it yields an empty frame and decoding goes on |
| `Voice.Play` | main.go:214-251 | The first call is always the join of the given guild and channel, and a playback with no error ends with Disconnect. Its other properties are in `PlaySendsBuffer`, `PlayStopsAtFirstFailure` and `PlaySendsWhileSpeaking` |
| `Voice.OpusOfSends` | main.go:230-232 | The send loop puts every buffered frame on OpusSend once, in buffer order |
| `Voice.PlaySendsBuffer` | main.go:214-251 | playSound first joins the given guild and channel. After a successful join and Speaking(true) it sends exactly the buffer; if either fails it sends nothing and returns that step's error. It returns no error exactly when every step succeeds |
| `Voice.PlayStopsAtFirstFailure` | main.go:217-248 | Speaking(true) is called exactly when the join succeeded, Speaking(false) exactly when Speaking(true) also did, and Disconnect exactly when Speaking(false) also did. Speaking(false) failing, or Disconnect failing after every earlier step succeeded, is exactly when that error is returned |
| `Voice.PlaySendsWhileSpeaking` | main.go:226-238 | Every OpusSend lies strictly between Speaking(true) at index 1 and Speaking(false) right after the last frame; no frame is sent when the join or Speaking(true) fails |
| `Voice.PlayEmptySendsNothing` | main.go:230-232 | Playing the empty buffer, as after clearBuffer, sends no frame |
| `Dispatch.HasPrefix` | main.go:107 | strings.HasPrefix holds exactly when the prefix is no longer than the content and agrees with it character by character; the content is then the prefix followed by the rest |
| `Dispatch.FirstMatch` | main.go:106-107 | The command found is the first in order that is a prefix of the content; none is found exactly when no command is a prefix |
| `Dispatch.FirstVoiceState` | main.go:125-126 | The voice state found is the first in guild order whose user is the author; none is found exactly when the author has none |
| `Dispatch.Decide` | main.go:87-126 | The handler stops as self-authored exactly when the author is the bot, and for lack of commands exactly when the file cannot be opened for another author. A trigger names the content minus its first character and the message's guild. `DecideFiresIff` and `DecideTrigger` state when it fires and with which channel |
| `Dispatch.DecideIgnoresSelf` | main.go:87-89 | A message authored by the bot itself is ignored |
| `Dispatch.DecideFiresIff` | main.go:87-126 | A load is attempted exactly when the message is not the bot's own, some command is a prefix of the content, the content is not empty, the guild is known and the author has a voice state in it |
| `Dispatch.DecideTrigger` | main.go:109-131 | The sound name is the content minus its first character, and the channel is that of the author's first voice state in the guild |
| `Dispatch.NutbarScenario` | main.go:106-131 | With commands `!nut` and `!airhorn`, "!nutbar" from a user in channel V of guild G plays "nutbar" to (G, V) |
| `Dispatch.NotInVoiceScenario` | main.go:125-141 | "!nutbar" from a user with no voice state in the guild triggers nothing |
| `Dispatch.HelloScenario` | main.go:106-107 | "hello" matches no command and triggers nothing |
| `Dispatch.EmptyCommandPanics` | main.go:97-109 | An empty command matches empty content, and content[1:] then panics |
| `Nutbot.Load` | main.go:163-205 | loadSound only appends: the old buffer is a prefix of the new one. An open failure happens exactly when the file is missing, and it changes nothing |
| `Nutbot.StatusOf` | main.go:179-199 | No error exactly at the end of the data when the close succeeds; a close error at the end of the data otherwise; a read error exactly on a short payload; a panic exactly on a negative length; never an open error |
| `Nutbot.LoadRoundTrip` | main.go:174-204 | Loading a well-formed clip returns no error and appends exactly its frames, in order and byte for byte |
| `Nutbot.LoadStopsAtBoundary` | main.go:176-185 | Loading a clip that ends at a record boundary, or with one stray byte, returns no error and appends only its complete frames |
| `Nutbot.LoadTruncatedFrame` | main.go:193-203 | Loading a clip with a short payload returns a read error; the frames before it stay appended, and no partial frame is |
| `Nutbot.Handle` | main.go:83-144 | The voice log only grows. The handler skips exactly when `Decide` does not fire, and a skip changes nothing. A failed load sends nothing, keeps the old buffer as a prefix and returns an error status. A playback, whatever its result, leaves the buffer empty. `HandleClearsAfterLoad`, `HandleKeepsFramesOnLoadFailure` and `StaleFramesReplayed` give the buffers and calls exactly |
| `Nutbot.HandleClearsAfterLoad` | main.go:127-135 | After a successful load, the buffer is cleared whether or not playSound fails. The channel joined is the chosen one, and the frames sent are the old buffer followed by the clip's frames |
| `Nutbot.HandleKeepsFramesOnLoadFailure` | main.go:127-129 | A failed load returns before clearBuffer: its decoded frames stay in the buffer and nothing is sent |
| `Nutbot.HandleSkipsWithoutTrigger` | main.go:87-143 | A message that triggers nothing changes neither the buffer nor the voice log |
| `Nutbot.StaleFramesReplayed` | main.go:127-135 | A first trigger on a clip cut inside a frame leaves that clip's frames in the buffer. The next successful trigger sends them before its own frames, and then clears the buffer |
| `Nutbot.Bot.constructor` | main.go:22 | The buffer starts empty |
| `Nutbot.Bot.LoadSound` | main.go:163-205 | The read loop leaves the buffer and returns the status that `Load` gives for the old buffer and the file |
| `Nutbot.Bot.ClearBuffer` | main.go:209-211 | After clearBuffer the buffer is empty |
| `Nutbot.Bot.PlaySound` | main.go:214-251 | The calls appended to the voice log, and the error returned, are those of `Play` for the current buffer; the buffer is unchanged |
| `Nutbot.Bot.MessageCreate` | main.go:83-144 | The nested loops over commands and voice states leave the buffer and the voice log, and give the outcome, that `Handle` gives |

## Left out

- `main`, `init`, `ready` and `guildCreate` are not modelled. They cover session setup, flag parsing, signal handling, the status update and the greeting message, all of which are foreign library calls and network.
- Reading the commands file with `fmt.Fscanln` is not modelled; the command list is an input. Its whitespace and newline scanning belongs to Go's `fmt` library.
- The channel and guild lookups in the discordgo state cache are one input, `Option<Guild>`. Which of the two lookups failed is not distinguished; both end the handler the same way.
- The voice connection is not modelled. Each step's success is an input, and the calls are recorded in a log. Blocking and backpressure of the `OpusSend` channel are concurrency and are left out.
- Sharing the global buffer between concurrent handler goroutines is not modelled: one handler runs at a time.
- OS read errors in the middle of a file are not modelled. A file's contents are a byte sequence, and only its end can stop a read.
- The clip file is not closed on the error paths of `loadSound`. This leaks a file handle and does not affect the buffer, so it is not modelled.
- `time.Sleep` (main.go:137, 242) and console logging with `fmt.Println` are not modelled; they affect only timing and output.
- What happens to the process after a runtime panic is not modelled. The model ends the handler with `LengthPanic` or `EmptyContentPanic` and keeps the buffer as it was at that point.
- Strings are sequences of characters, and each character stands for one byte of the Go string. `content[1:]` drops one byte in Go, so a content whose first character takes several UTF-8 bytes is not modelled.
