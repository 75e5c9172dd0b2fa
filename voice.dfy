/** The voice side of playSound: the calls nutbot makes on a voice
    connection, recorded in the order they are issued. The connection itself
    (discordgo) is outside the model; whether each step succeeds is given. */
module Voice {
  import opened Dca
  import opened Seqs

  /** One call on the voice layer. `Opus(f)` is one send of frame `f` on the
      connection's OpusSend channel. */
  datatype VoiceCall =
    | Join(guildId: string, channelId: string)
    | Speaking(on: bool)
    | Opus(frame: Frame)
    | Disconnect

  /** Whether ChannelVoiceJoin, Speaking(true), Speaking(false) and
      Disconnect succeed on this attempt. */
  datatype VoiceResults = VoiceResults(joinOk: bool, speakingOnOk: bool, speakingOffOk: bool, disconnectOk: bool)

  /** The error playSound returns, by the step that produced it. */
  datatype PlayResult = PlayOk | JoinFailed | SpeakingOnFailed | SpeakingOffFailed | DisconnectFailed

  /** One OpusSend per frame, in order. */
  function Sends(frames: seq<Frame>): (calls: seq<VoiceCall>)
  {
    seq(|frames|, i requires 0 <= i < |frames| => Opus(frames[i]))
  }

  /** The frame a call carries, if it is a send. */
  function OpusOf(call: VoiceCall): (payload: seq<Frame>)
  {
    if call.Opus? then [call.frame] else []
  }

  /** The frames carried by a log of calls, in the order they were sent. */
  function OpusPayloads(calls: seq<VoiceCall>): (payloads: seq<Frame>)
  {
    if calls == [] then [] else OpusOf(calls[0]) + OpusPayloads(calls[1..])
  }

  lemma {:induction false} OpusPayloadsAppend(a: seq<VoiceCall>, b: seq<VoiceCall>)
    ensures OpusPayloads(a + b) == OpusPayloads(a) + OpusPayloads(b)
  {
    if a == [] {
      assert a + b == b;
    } else {
      assert (a + b)[0] == a[0];
      assert (a + b)[1..] == a[1..] + b;
      assert OpusPayloads(a + b) == OpusOf(a[0]) + OpusPayloads(a[1..] + b);
      OpusPayloadsAppend(a[1..], b);
      AppendAssoc(OpusOf(a[0]), OpusPayloads(a[1..]), OpusPayloads(b));
    }
  }

  /** The sends of a buffer carry exactly that buffer: every frame once, in order. */
  lemma {:induction false} OpusOfSends(frames: seq<Frame>)
    ensures OpusPayloads(Sends(frames)) == frames
  {
    if frames != [] {
      assert Sends(frames) == [Opus(frames[0])] + Sends(frames[1..]);
      OpusPayloadsAppend([Opus(frames[0])], Sends(frames[1..]));
      OpusOfSends(frames[1..]);
      assert frames == [frames[0]] + frames[1..];
    }
  }

  /** The calls playSound issues for a buffer, and what it returns: join,
      Speaking(true), every frame, Speaking(false), then Disconnect; each
      failed step ends the attempt with its error. */
  function Play(guildId: string, channelId: string, frames: seq<Frame>, voice: VoiceResults): (r: (seq<VoiceCall>, PlayResult))
    ensures r.0 != [] && r.0[0] == Join(guildId, channelId)
    ensures r.1 == PlayOk ==> r.0[|r.0| - 1] == Disconnect
  {
    if !voice.joinOk then ([Join(guildId, channelId)], JoinFailed)
    else if !voice.speakingOnOk then ([Join(guildId, channelId), Speaking(true)], SpeakingOnFailed)
    else
      var spoken := [Join(guildId, channelId), Speaking(true)] + Sends(frames) + [Speaking(false)];
      if !voice.speakingOffOk then (spoken, SpeakingOffFailed)
      else if !voice.disconnectOk then (spoken + [Disconnect], DisconnectFailed)
      else (spoken + [Disconnect], PlayOk)
  }

  /** playSound sends exactly the buffered frames, in buffer order, each once,
      once it has joined and started speaking; if the join or Speaking(true)
      fails, nothing is sent and that error is returned. The first call is
      always the join of the given guild and channel. */
  lemma PlaySendsBuffer(guildId: string, channelId: string, frames: seq<Frame>, voice: VoiceResults)
    ensures var (calls, result) := Play(guildId, channelId, frames, voice);
      && calls != [] && calls[0] == Join(guildId, channelId)
      && OpusPayloads(calls) == (if voice.joinOk && voice.speakingOnOk then frames else [])
      && (result == JoinFailed <==> !voice.joinOk)
      && (result == SpeakingOnFailed <==> voice.joinOk && !voice.speakingOnOk)
      && (result == PlayOk <==> voice.joinOk && voice.speakingOnOk && voice.speakingOffOk && voice.disconnectOk)
  {
    var head := [Join(guildId, channelId), Speaking(true)];
    assert OpusPayloads(head) == [] by {
      assert head[1..] == [Speaking(true)];
      assert [Speaking(true)][1..] == [];
    }
    assert OpusPayloads([Speaking(false)]) == [];
    assert OpusPayloads([Disconnect]) == [];
    OpusPayloadsAppend(head, Sends(frames));
    OpusOfSends(frames);
    OpusPayloadsAppend(head + Sends(frames), [Speaking(false)]);
    OpusPayloadsAppend(head + Sends(frames) + [Speaking(false)], [Disconnect]);
  }

  /** Each step is issued only after the one before it succeeded, and the
      first failing step names the error returned. */
  lemma PlayStopsAtFirstFailure(guildId: string, channelId: string, frames: seq<Frame>, voice: VoiceResults)
    ensures var (calls, result) := Play(guildId, channelId, frames, voice);
      && (Speaking(true) in calls <==> voice.joinOk)
      && (Speaking(false) in calls <==> voice.joinOk && voice.speakingOnOk)
      && (Disconnect in calls <==> voice.joinOk && voice.speakingOnOk && voice.speakingOffOk)
      && (result == SpeakingOffFailed <==> voice.joinOk && voice.speakingOnOk && !voice.speakingOffOk)
      && (result == DisconnectFailed <==>
            voice.joinOk && voice.speakingOnOk && voice.speakingOffOk && !voice.disconnectOk)
  {
    var sends := Sends(frames);
    assert forall i :: 0 <= i < |sends| ==> sends[i].Opus?;
    var calls := Play(guildId, channelId, frames, voice).0;
    if voice.joinOk && voice.speakingOnOk {
      var spoken := [Join(guildId, channelId), Speaking(true)] + sends + [Speaking(false)];
      assert spoken[1] == Speaking(true);
      assert spoken[|spoken| - 1] == Speaking(false);
      assert Disconnect !in spoken;
    } else if voice.joinOk {
      assert calls[1] == Speaking(true);
    }
  }

  /** Every frame is sent while speaking: each OpusSend lies strictly between
      Speaking(true) and Speaking(false), and none is made when the join or
      Speaking(true) fails. */
  lemma PlaySendsWhileSpeaking(guildId: string, channelId: string, frames: seq<Frame>, voice: VoiceResults)
    ensures var calls := Play(guildId, channelId, frames, voice).0;
      && (voice.joinOk && voice.speakingOnOk ==>
            |calls| >= 3 + |frames| && calls[1] == Speaking(true) && calls[2 + |frames|] == Speaking(false))
      && (forall i :: 0 <= i < |calls| && calls[i].Opus? ==>
            voice.joinOk && voice.speakingOnOk && 1 < i < 2 + |frames|)
  {
    var sends := Sends(frames);
    var head := [Join(guildId, channelId), Speaking(true)];
    var calls := Play(guildId, channelId, frames, voice).0;
    if voice.joinOk && voice.speakingOnOk {
      assert calls[..2 + |frames|] == head + sends;
    }
  }

  /** Playing an empty buffer, as after clearBuffer, sends no frame. */
  lemma PlayEmptySendsNothing(guildId: string, channelId: string, voice: VoiceResults)
    ensures OpusPayloads(Play(guildId, channelId, [], voice).0) == []
  {
    PlaySendsBuffer(guildId, channelId, [], voice);
  }
}
