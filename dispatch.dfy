/** The selection logic of messageCreate: whether an incoming message
    triggers a sound, which sound, and which voice channel it is played to.
    Strings are sequences of characters; each character stands for one byte
    of the Go string. */
module Dispatch {

  datatype Option<T> = None | Some(value: T)

  datatype Message = Message(authorId: string, content: string)

  datatype VoiceState = VoiceState(userId: string, channelId: string)

  /** The guild of the message's channel, with its current voice states. */
  datatype Guild = Guild(id: string, voiceStates: seq<VoiceState>)

  /** A sound to load and the voice channel to play it to. */
  datatype Trigger = Trigger(soundName: string, guildId: string, channelId: string)

  /** Where messageCreate stops, or the trigger it acts on. */
  datatype Decision =
    | SelfAuthored           // the bot's own message
    | CommandsUnavailable    // the commands file could not be opened
    | NoTrigger              // no command is a prefix of the content
    | EmptyContentPanic      // content[1:] on empty content: a runtime panic
    | LookupFailed           // the channel or its guild is not in the state cache
    | NotInVoice             // the author has no voice state in the guild
    | Fire(trigger: Trigger)

  /** strings.HasPrefix */
  function HasPrefix(s: string, prefix: string): (b: bool)
    ensures b <==> |prefix| <= |s| && forall i :: 0 <= i < |prefix| ==> s[i] == prefix[i]
    ensures b ==> s == prefix + s[|prefix|..]
  {
    |prefix| <= |s| && s[..|prefix|] == prefix
  }

  /** The first command, in file order, that is a prefix of the content. */
  function FirstMatch(commands: seq<string>, content: string): (r: Option<nat>)
    ensures r.Some? ==> r.value < |commands| && HasPrefix(content, commands[r.value])
    ensures r.Some? ==> forall k :: 0 <= k < r.value ==> !HasPrefix(content, commands[k])
    ensures r.None? ==> forall k :: 0 <= k < |commands| ==> !HasPrefix(content, commands[k])
  {
    if commands == [] then None
    else if HasPrefix(content, commands[0]) then Some(0)
    else match FirstMatch(commands[1..], content)
      case None => None
      case Some(k) => Some(k + 1)
  }

  /** The first voice state, in guild order, that belongs to the user. */
  function FirstVoiceState(states: seq<VoiceState>, userId: string): (r: Option<nat>)
    ensures r.Some? ==> r.value < |states| && states[r.value].userId == userId
    ensures r.Some? ==> forall k :: 0 <= k < r.value ==> states[k].userId != userId
    ensures r.None? ==> forall k :: 0 <= k < |states| ==> states[k].userId != userId
  {
    if states == [] then None
    else if states[0].userId == userId then Some(0)
    else match FirstVoiceState(states[1..], userId)
      case None => None
      case Some(k) => Some(k + 1)
  }

  /** What messageCreate decides for a message. `commands` is None when the
      commands file cannot be opened; `guild` is None when the channel or
      guild lookup fails. */
  function Decide(selfId: string, msg: Message, commands: Option<seq<string>>, guild: Option<Guild>): (d: Decision)
    ensures d == SelfAuthored <==> msg.authorId == selfId
    ensures d == CommandsUnavailable <==> msg.authorId != selfId && commands.None?
    ensures d.Fire? ==> && |msg.content| > 0 && d.trigger.soundName == msg.content[1..]
                        && guild.Some? && d.trigger.guildId == guild.value.id
  {
    if msg.authorId == selfId then SelfAuthored
    else if commands.None? then CommandsUnavailable
    else if FirstMatch(commands.value, msg.content).None? then NoTrigger
    else if |msg.content| == 0 then EmptyContentPanic
    else if guild.None? then LookupFailed
    else match FirstVoiceState(guild.value.voiceStates, msg.authorId)
      case None => NotInVoice
      case Some(j) => Fire(Trigger(msg.content[1..], guild.value.id, guild.value.voiceStates[j].channelId))
  }

  /** A self-authored message does nothing. */
  lemma DecideIgnoresSelf(selfId: string, msg: Message, commands: Option<seq<string>>, guild: Option<Guild>)
    requires msg.authorId == selfId
    ensures Decide(selfId, msg, commands, guild) == SelfAuthored
  {
  }

  /** A sound is loaded exactly when the message is not the bot's own, some
      command is a prefix of the content, the content is not empty, the guild
      is known and the author has a voice state in it. */
  lemma DecideFiresIff(selfId: string, msg: Message, commands: Option<seq<string>>, guild: Option<Guild>)
    ensures Decide(selfId, msg, commands, guild).Fire? <==>
      && msg.authorId != selfId
      && commands.Some?
      && (exists k :: 0 <= k < |commands.value| && HasPrefix(msg.content, commands.value[k]))
      && |msg.content| > 0
      && guild.Some?
      && (exists j :: 0 <= j < |guild.value.voiceStates| && guild.value.voiceStates[j].userId == msg.authorId)
  {
    if commands.Some? {
      var m := FirstMatch(commands.value, msg.content);
      if m.Some? {
        assert HasPrefix(msg.content, commands.value[m.value]);
      }
    }
    if guild.Some? {
      var v := FirstVoiceState(guild.value.voiceStates, msg.authorId);
      if v.Some? {
        assert guild.value.voiceStates[v.value].userId == msg.authorId;
      }
    }
  }

  /** The sound name is the content minus its first character (not the
      matched command), and the channel is that of the first voice state of
      the author. */
  lemma DecideTrigger(selfId: string, msg: Message, commands: Option<seq<string>>, guild: Option<Guild>)
    requires Decide(selfId, msg, commands, guild).Fire?
    ensures var t := Decide(selfId, msg, commands, guild).trigger;
      && |msg.content| > 0 && t.soundName == msg.content[1..]
      && guild.Some? && t.guildId == guild.value.id
      && (exists j :: 0 <= j < |guild.value.voiceStates|
           && guild.value.voiceStates[j].userId == msg.authorId
           && t.channelId == guild.value.voiceStates[j].channelId
           && (forall k :: 0 <= k < j ==> guild.value.voiceStates[k].userId != msg.authorId))
  {
    var j := FirstVoiceState(guild.value.voiceStates, msg.authorId).value;
    assert guild.value.voiceStates[j].userId == msg.authorId;
  }

  /** With commands `!nut` and `!airhorn`, "!nutbar" from a user in voice
      channel V of guild G plays "nutbar" to (G, V). */
  lemma NutbarScenario(selfId: string, author: string)
    requires author != selfId
    ensures Decide(selfId, Message(author, "!nutbar"), Some(["!nut", "!airhorn"]),
                   Some(Guild("G", [VoiceState(author, "V")])))
            == Fire(Trigger("nutbar", "G", "V"))
  {
    assert HasPrefix("!nutbar", "!nut");
  }

  /** "!nutbar" from a user with no voice state in the guild triggers nothing. */
  lemma NotInVoiceScenario(selfId: string, author: string, other: string)
    requires author != selfId && other != author
    ensures Decide(selfId, Message(author, "!nutbar"), Some(["!nut", "!airhorn"]),
                   Some(Guild("G", [VoiceState(other, "V")])))
            == NotInVoice
  {
    assert HasPrefix("!nutbar", "!nut");
  }

  /** "hello" matches no command and triggers nothing. */
  lemma HelloScenario(selfId: string, author: string, guild: Option<Guild>)
    requires author != selfId
    ensures Decide(selfId, Message(author, "hello"), Some(["!nut", "!airhorn"]), guild) == NoTrigger
  {
    assert !HasPrefix("hello", "!nut") by { assert "hello"[0] != "!nut"[0]; }
    assert !HasPrefix("hello", "!airhorn") by { assert "hello"[0] != "!airhorn"[0]; }
  }

  /** An empty command (a blank line of the commands file) is a prefix of
      every content; on an empty content, content[1:] is out of range. */
  lemma EmptyCommandPanics(selfId: string, author: string, commands: seq<string>, guild: Option<Guild>)
    requires author != selfId
    requires "" in commands
    ensures Decide(selfId, Message(author, ""), Some(commands), guild) == EmptyContentPanic
  {
    var k :| 0 <= k < |commands| && commands[k] == "";
    assert HasPrefix("", commands[k]);
  }
}
