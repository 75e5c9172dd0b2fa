/** The process-wide frame buffer of nutbot and the handlers that use it:
    loadSound fills it from a .dca file, playSound drains it to a voice
    connection, clearBuffer empties it, and messageCreate runs the three in
    sequence when a message triggers a sound. One handler runs at a time. */
module Nutbot {
  import opened Dca
  import opened Voice
  import opened Dispatch
  import opened Seqs

  /** The files loadSound can open, by path. A path that is absent is a
      file that os.Open fails on. */
  type Disk = map<string, seq<Byte>>

  /** The error loadSound returns; LengthPanic is the runtime panic of
      make() on a negative length, which Go does not turn into an error. */
  datatype LoadStatus = LoadOk | OpenError | CloseError | ReadError | LengthPanic

  /** The state the handlers share: the frame buffer and the log of calls
      made on voice connections. */
  datatype BotState = BotState(buffer: seq<Frame>, log: seq<VoiceCall>)

  /** How a messageCreate invocation ended. */
  datatype Outcome = Skipped(decision: Decision) | LoadFailed(status: LoadStatus) | Played(result: PlayResult)

  /** The status loadSound returns once its read loop stops: no error only
      at the end of the data with a successful close. */
  function StatusOf(stop: Stop, closeOk: bool): (status: LoadStatus)
    ensures status == LoadOk <==> stop == EndOfStream && closeOk
    ensures status == CloseError <==> stop == EndOfStream && !closeOk
    ensures status == ReadError <==> stop == TruncatedFrame
    ensures status == LengthPanic <==> stop == NegativeLength
    ensures status != OpenError
  {
    match stop
    case EndOfStream => if closeOk then LoadOk else CloseError
    case TruncatedFrame => ReadError
    case NegativeLength => LengthPanic
  }

  /** loadSound as a function of the buffer before it: the buffer after it
      and the status it returns. It only appends. */
  function Load(buffer: seq<Frame>, soundName: string, disk: Disk, closeOk: bool): (r: (seq<Frame>, LoadStatus))
    ensures buffer <= r.0
    ensures r.1 == OpenError <==> soundName + ".dca" !in disk
    ensures r.1 == OpenError ==> r.0 == buffer
  {
    var path := soundName + ".dca";
    if path !in disk then (buffer, OpenError)
    else
      var d := Decode(disk[path]);
      (buffer + d.frames, StatusOf(d.stop, closeOk))
  }

  /** messageCreate as a function of the shared state before it: decide,
      then load, then (only if the load succeeded) play and clear. */
  function Handle(s: BotState, selfId: string, msg: Message, commands: Option<seq<string>>,
                  guild: Option<Guild>, disk: Disk, closeOk: bool, voice: VoiceResults): (r: (BotState, Outcome))
    ensures s.log <= r.0.log
    ensures r.1.Skipped? <==> !Decide(selfId, msg, commands, guild).Fire?
    ensures r.1.Skipped? ==> r.0 == s
    ensures r.1.LoadFailed? ==> r.1.status != LoadOk && r.0.log == s.log && s.buffer <= r.0.buffer
    ensures r.1.Played? ==> r.0.buffer == []
  {
    match Decide(selfId, msg, commands, guild)
    case Fire(t) =>
      var (buffer, status) := Load(s.buffer, t.soundName, disk, closeOk);
      if status != LoadOk then (BotState(buffer, s.log), LoadFailed(status))
      else
        var (calls, result) := Play(t.guildId, t.channelId, buffer, voice);
        (BotState([], s.log + calls), Played(result))
    case d => (s, Skipped(d))
  }

  /** A well-formed clip loads without error and appends exactly its frames,
      in order and byte for byte. */
  lemma LoadRoundTrip(buffer: seq<Frame>, soundName: string, disk: Disk, frames: seq<Frame>)
    requires ValidFrames(frames)
    requires soundName + ".dca" in disk && disk[soundName + ".dca"] == Encode(frames)
    ensures Load(buffer, soundName, disk, true) == (buffer + frames, LoadOk)
  {
    DecodeEncode(frames);
  }

  /** A clip that ends at a record boundary, or with one stray byte where a
      length should be, loads without error and appends only its complete
      frames. */
  lemma LoadStopsAtBoundary(buffer: seq<Frame>, soundName: string, disk: Disk, frames: seq<Frame>, tail: seq<Byte>)
    requires ValidFrames(frames) && |tail| <= 1
    requires soundName + ".dca" in disk && disk[soundName + ".dca"] == Encode(frames) + tail
    ensures Load(buffer, soundName, disk, true) == (buffer + frames, LoadOk)
  {
    DecodeStopsAtBoundary(frames, tail);
  }

  /** A declared length beyond the remaining bytes is a read error; the
      frames before it stay appended and no partial frame is. */
  lemma LoadTruncatedFrame(buffer: seq<Frame>, soundName: string, disk: Disk, closeOk: bool,
                           frames: seq<Frame>, n: nat, partial: seq<Byte>)
    requires ValidFrames(frames) && n <= MaxFrameLen && |partial| < n
    requires soundName + ".dca" in disk && disk[soundName + ".dca"] == Encode(frames) + Header(n) + partial
    ensures Load(buffer, soundName, disk, closeOk) == (buffer + frames, ReadError)
  {
    DecodeTruncatedFrame(frames, n, partial);
  }

  /** After a successful load, the buffer is cleared whether or not playing
      succeeds, and what was sent is the old buffer followed by the new
      frames: frames left behind by an earlier failed load are played too. */
  lemma HandleClearsAfterLoad(s: BotState, selfId: string, msg: Message, commands: Option<seq<string>>,
                              guild: Option<Guild>, disk: Disk, closeOk: bool, voice: VoiceResults)
    requires Decide(selfId, msg, commands, guild).Fire?
    requires Load(s.buffer, Decide(selfId, msg, commands, guild).trigger.soundName, disk, closeOk).1 == LoadOk
    ensures var t := Decide(selfId, msg, commands, guild).trigger;
      var path := t.soundName + ".dca";
      var (s', outcome) := Handle(s, selfId, msg, commands, guild, disk, closeOk, voice);
      && s'.buffer == []
      && outcome.Played?
      && s.log <= s'.log
      && s'.log[|s.log|] == Join(t.guildId, t.channelId)
      && path in disk
      && OpusPayloads(s'.log[|s.log|..]) ==
         (if voice.joinOk && voice.speakingOnOk then s.buffer + Decode(disk[path]).frames else [])
  {
    var t := Decide(selfId, msg, commands, guild).trigger;
    var buffer := Load(s.buffer, t.soundName, disk, closeOk).0;
    var calls := Play(t.guildId, t.channelId, buffer, voice).0;
    PlaySendsBuffer(t.guildId, t.channelId, buffer, voice);
    assert (s.log + calls)[|s.log|..] == calls;
  }

  /** A failed load returns before clearBuffer: the frames it decoded stay in
      the buffer and nothing is sent. */
  lemma HandleKeepsFramesOnLoadFailure(s: BotState, selfId: string, msg: Message, commands: Option<seq<string>>,
                                       guild: Option<Guild>, disk: Disk, closeOk: bool, voice: VoiceResults)
    requires Decide(selfId, msg, commands, guild).Fire?
    requires Load(s.buffer, Decide(selfId, msg, commands, guild).trigger.soundName, disk, closeOk).1 != LoadOk
    ensures var path := Decide(selfId, msg, commands, guild).trigger.soundName + ".dca";
      var (s', outcome) := Handle(s, selfId, msg, commands, guild, disk, closeOk, voice);
      && outcome.LoadFailed?
      && s'.log == s.log
      && s'.buffer == (if path in disk then s.buffer + Decode(disk[path]).frames else s.buffer)
  {
  }

  /** A message that triggers nothing leaves the buffer and the log alone. */
  lemma HandleSkipsWithoutTrigger(s: BotState, selfId: string, msg: Message, commands: Option<seq<string>>,
                                  guild: Option<Guild>, disk: Disk, closeOk: bool, voice: VoiceResults)
    requires !Decide(selfId, msg, commands, guild).Fire?
    ensures Handle(s, selfId, msg, commands, guild, disk, closeOk, voice) == (s, Skipped(Decide(selfId, msg, commands, guild)))
  {
  }

  /** The stale-buffer behaviour end to end: a first trigger whose clip is
      cut inside a frame leaves that clip's complete frames in the buffer; a
      second trigger with a good clip then plays them ahead of its own. */
  lemma StaleFramesReplayed(selfId: string, msg: Message, commands: Option<seq<string>>, guild: Option<Guild>,
                            disk: Disk, voice: VoiceResults,
                            first: seq<Frame>, n: nat, partial: seq<Byte>, second: seq<Frame>, disk2: Disk)
    requires Decide(selfId, msg, commands, guild).Fire?
    requires voice.joinOk && voice.speakingOnOk
    requires ValidFrames(first) && n <= MaxFrameLen && |partial| < n && ValidFrames(second)
    requires var path := Decide(selfId, msg, commands, guild).trigger.soundName + ".dca";
      && path in disk && disk[path] == Encode(first) + Header(n) + partial
      && path in disk2 && disk2[path] == Encode(second)
    ensures var (s1, _) := Handle(BotState([], []), selfId, msg, commands, guild, disk, true, voice);
      var (s2, _) := Handle(s1, selfId, msg, commands, guild, disk2, true, voice);
      && s1.buffer == first
      && s2.buffer == []
      && OpusPayloads(s2.log) == first + second
  {
    var t := Decide(selfId, msg, commands, guild).trigger;
    LoadTruncatedFrame([], t.soundName, disk, true, first, n, partial);
    assert [] + first == first;
    var s1 := Handle(BotState([], []), selfId, msg, commands, guild, disk, true, voice).0;
    assert s1 == BotState(first, []);
    LoadRoundTrip(first, t.soundName, disk2, second);
    HandleClearsAfterLoad(s1, selfId, msg, commands, guild, disk2, true, voice);
    DecodeEncode(second);
    var s2 := Handle(s1, selfId, msg, commands, guild, disk2, true, voice).0;
    assert s2.log[0..] == s2.log;
  }

  /** The handlers over the process-wide state. */
  class Bot {
    /** The global frame buffer, [][]byte in the source. */
    var buffer: seq<Frame>
    /** Every call made on a voice connection, OpusSend sends included. */
    var log: seq<VoiceCall>

    /** The buffer starts empty. */
    constructor ()
      ensures buffer == [] && log == []
    {
      buffer := [];
      log := [];
    }

    /** Opens `<soundName>.dca` and appends its frames to the buffer, one
        record at a time, until the input ends at a length prefix (normal
        stop) or a record cannot be read (error). */
    method LoadSound(soundName: string, disk: Disk, closeOk: bool) returns (status: LoadStatus)
      modifies this`buffer
      ensures (buffer, status) == Load(old(buffer), soundName, disk, closeOk)
    {
      var path := soundName + ".dca";
      if path !in disk {
        return OpenError;
      }
      var data := disk[path];
      ghost var whole := Decode(data);
      // The unread part of the file.
      var rest := data;
      while true
        invariant buffer + Decode(rest).frames == old(buffer) + whole.frames
        invariant Decode(rest).stop == whole.stop
        decreases |rest|
      {
        // Reading the int16 length: no byte left is io.EOF, one byte left is
        // io.ErrUnexpectedEOF, and both end the clip normally.
        if |rest| < 2 {
          assert buffer + [] == buffer;
          if !closeOk {
            return CloseError;
          }
          return LoadOk;
        }
        var opusLen := Int16LE(rest[0], rest[1]);
        if opusLen < 0 {
          assert buffer + [] == buffer;
          return LengthPanic;
        }
        if |rest| - 2 < opusLen {
          assert buffer + [] == buffer;
          return ReadError;
        }
        var frame := rest[2..2 + opusLen];
        AppendAssoc(buffer, [frame], Decode(rest[2 + opusLen..]).frames);
        buffer := buffer + [frame];
        rest := rest[2 + opusLen..];
      }
    }

    /** Resets the buffer. */
    method ClearBuffer()
      modifies this`buffer
      ensures buffer == []
    {
      buffer := [];
    }

    /** Joins the channel, starts speaking, sends every buffered frame on
        OpusSend in order, stops speaking and disconnects; the first failing
        step ends it with its error. The buffer is left as it is. */
    method PlaySound(guildId: string, channelId: string, voice: VoiceResults) returns (result: PlayResult)
      modifies this`log
      ensures log == old(log) + Play(guildId, channelId, buffer, voice).0
      ensures result == Play(guildId, channelId, buffer, voice).1
    {
      log := log + [Join(guildId, channelId)];
      if !voice.joinOk {
        return JoinFailed;
      }
      log := log + [Speaking(true)];
      if !voice.speakingOnOk {
        return SpeakingOnFailed;
      }
      var i := 0;
      while i < |buffer|
        invariant 0 <= i <= |buffer|
        invariant log == old(log) + [Join(guildId, channelId), Speaking(true)] + Sends(buffer[..i])
      {
        assert Sends(buffer[..i + 1]) == Sends(buffer[..i]) + [Opus(buffer[i])];
        log := log + [Opus(buffer[i])];
        i := i + 1;
      }
      assert buffer[..i] == buffer;
      log := log + [Speaking(false)];
      if !voice.speakingOffOk {
        return SpeakingOffFailed;
      }
      log := log + [Disconnect];
      if !voice.disconnectOk {
        return DisconnectFailed;
      }
      return PlayOk;
    }

    /** The message handler: ignore the bot's own messages; for each command
        that is a prefix of the content, take content[1:] as the sound name,
        look up the guild and scan its voice states for the author; on the
        first match load, then play and clear unless the load failed. */
    method MessageCreate(selfId: string, msg: Message, commands: Option<seq<string>>, guild: Option<Guild>,
                         disk: Disk, closeOk: bool, voice: VoiceResults) returns (outcome: Outcome)
      modifies this
      ensures (BotState(buffer, log), outcome)
              == Handle(BotState(old(buffer), old(log)), selfId, msg, commands, guild, disk, closeOk, voice)
    {
      if msg.authorId == selfId {
        return Skipped(SelfAuthored);
      }
      if commands.None? {
        return Skipped(CommandsUnavailable);
      }
      var cmds := commands.value;
      var matched := false;
      var i := 0;
      while i < |cmds|
        invariant 0 <= i <= |cmds|
        invariant buffer == old(buffer) && log == old(log)
        invariant matched <==> exists k :: 0 <= k < i && HasPrefix(msg.content, cmds[k])
        invariant matched ==> |msg.content| > 0 && guild.Some?
                              && FirstVoiceState(guild.value.voiceStates, msg.authorId).None?
      {
        if HasPrefix(msg.content, cmds[i]) {
          if |msg.content| == 0 {
            return Skipped(EmptyContentPanic);
          }
          var soundName := msg.content[1..];
          if guild.None? {
            return Skipped(LookupFailed);
          }
          var g := guild.value;
          var j := 0;
          while j < |g.voiceStates|
            invariant 0 <= j <= |g.voiceStates|
            invariant buffer == old(buffer) && log == old(log)
            invariant forall k :: 0 <= k < j ==> g.voiceStates[k].userId != msg.authorId
          {
            var vs := g.voiceStates[j];
            if vs.userId == msg.authorId {
              assert FirstVoiceState(g.voiceStates, msg.authorId) == Some(j);
              var status := LoadSound(soundName, disk, closeOk);
              if status != LoadOk {
                return LoadFailed(status);
              }
              var result := PlaySound(g.id, vs.channelId, voice);
              ClearBuffer();
              return Played(result);
            }
            j := j + 1;
          }
          matched := true;
        }
        i := i + 1;
      }
      return Skipped(if matched then NotInVoice else NoTrigger);
    }
  }
}
