/** spiritual_assistant_with_loading.py: the canned keyword responder, the
    spoken reply, and the conversation loop that runs both under the
    loading-sound overlay.

    Speech recognition is an oracle: `inputs` lists what `listen_for_input`
    returns on each turn, `None` when nothing was understood. piper and aplay
    succeed on the texts in `renders` and `plays`. */
module SpiritualAssistant {
  import opened Common
  import opened LoadingSounds

  // ---------------------------------------------------------------------------
  // get_ai_response(user_input)

  /** The ten topics of `spiritual_responses` and the fallback answer. */
  datatype Topic = Hello | HowAreYou | Prayer | Bible | Faith | Love | Peace | Hope | Help | ThankYou | Fallback

  /** `spiritual_responses`, in declaration order: each key with its topic. */
  function Responses(): seq<(string, Topic)> {
    [("hello", Hello), ("how are you", HowAreYou), ("prayer", Prayer), ("bible", Bible), ("faith", Faith),
     ("love", Love), ("peace", Peace), ("hope", Hope), ("help", Help), ("thank you", ThankYou)]
  }

  /** What is said for each topic; `Fallback` is the answer when no key
      occurs. */
  function ReplyText(t: Topic): string {
    match t
    case Hello =>
      "Hello! "
      + "May God's peace be with you today. "
      + "How can I help you on your spiritual journey?"
    case HowAreYou =>
      "I'm doing well, thank you for asking. "
      + "I'm here to support you in your faith and spiritual growth."
    case Prayer =>
      "Prayer is a beautiful way to connect with God. "
      + "Remember, He always listens with love and understanding."
    case Bible =>
      "The Bible is God's living word, "
      + "full of wisdom and guidance for our daily lives. "
      + "What specific passage or topic interests you?"
    case Faith =>
      "Faith is a gift from God that grows stronger through trust, "
      + "prayer, and experiencing His love in our lives."
    case Love =>
      "God's love is unconditional and everlasting. "
      + "He loves you more than you can imagine, just as you are."
    case Peace =>
      "Peace comes from knowing that God is in control "
      + "and that He works all things for good for those who love Him."
    case Hope =>
      "Hope in Christ is an anchor for our souls. "
      + "Even in difficult times, we can trust in His promises and love."
    case Help =>
      "I'm here to help you! "
      + "Whether you need spiritual guidance, prayer support, "
      + "or just someone to talk to about your faith."
    case ThankYou =>
      "You're very welcome! "
      + "It's a blessing to be able to help you on your spiritual journey. "
      + "God bless you!"
    case Fallback =>
      "Thank you for sharing that with me. "
      + "Remember that God loves you and is always with you. "
      + "Is there anything specific about your faith journey I can help you with?"
  }

  /** Every answer is non-empty, so the `if ai_response` test always holds. */
  lemma ReplyTextNonEmpty(t: Topic)
    ensures |ReplyText(t)| > 0
  {
    match t
    case Hello => HelloNonEmpty();
    case HowAreYou => HowAreYouNonEmpty();
    case Prayer => PrayerNonEmpty();
    case Bible => BibleNonEmpty();
    case Faith => FaithNonEmpty();
    case Love => LoveNonEmpty();
    case Peace => PeaceNonEmpty();
    case Hope => HopeNonEmpty();
    case Help => HelpNonEmpty();
    case ThankYou => ThankYouNonEmpty();
    case Fallback => FallbackNonEmpty();
  }

  // One lemma per answer keeps the length of each long literal in a proof
  // obligation of its own.
  lemma HelloNonEmpty() ensures |ReplyText(Hello)| > 0 {}
  lemma HowAreYouNonEmpty() ensures |ReplyText(HowAreYou)| > 0 {}
  lemma PrayerNonEmpty() ensures |ReplyText(Prayer)| > 0 {}
  lemma BibleNonEmpty() ensures |ReplyText(Bible)| > 0 {}
  lemma FaithNonEmpty() ensures |ReplyText(Faith)| > 0 {}
  lemma LoveNonEmpty() ensures |ReplyText(Love)| > 0 {}
  lemma PeaceNonEmpty() ensures |ReplyText(Peace)| > 0 {}
  lemma HopeNonEmpty() ensures |ReplyText(Hope)| > 0 {}
  lemma HelpNonEmpty() ensures |ReplyText(Help)| > 0 {}
  lemma ThankYouNonEmpty() ensures |ReplyText(ThankYou)| > 0 {}
  lemma FallbackNonEmpty() ensures |ReplyText(Fallback)| > 0 {}

  /** The topic of the first entry whose key occurs in `text`, or `Fallback`. */
  function FirstMatch(table: seq<(string, Topic)>, text: string): Topic
    decreases |table|
  {
    if table == [] then Fallback
    else if Contains(text, table[0].0) then table[0].1
    else FirstMatch(table[1..], text)
  }

  /** The topic `get_ai_response` answers with: the first key, in table
      order, that occurs in the lowered input. */
  function TopicFor(userInput: string): Topic {
    FirstMatch(Responses(), Lower(userInput))
  }

  function ReplyFor(userInput: string): string {
    ReplyText(TopicFor(userInput))
  }

  /** Only the lowered input matters: the answer ignores case. */
  lemma TopicIgnoresCase(userInput: string)
    ensures TopicFor(Lower(userInput)) == TopicFor(userInput)
  {
    LowerIdempotent(userInput);
  }

  /** `get_ai_response`: lower the input, then look the topic up. */
  method GetAiResponse(userInput: string) returns (reply: string)
    ensures reply == ReplyFor(userInput)
  {
    var topic := MatchTopic(Responses(), Lower(userInput));
    reply := ReplyText(topic);
  }

  /** The loop over the table, returning at the first key found. */
  method MatchTopic(table: seq<(string, Topic)>, text: string) returns (topic: Topic)
    ensures topic == FirstMatch(table, text)
  {
    for i := 0 to |table|
      invariant FirstMatch(table, text) == FirstMatch(table[i..], text)
    {
      assert table[i..][1..] == table[i + 1..];
      if Contains(text, table[i].0) {
        return table[i].1;
      }
    }
    return Fallback;
  }

  /** The entry at `i` is the first whose key occurs in `text`. */
  predicate FirstKeyAt(table: seq<(string, Topic)>, text: string, i: int) {
    0 <= i < |table| && Contains(text, table[i].0) && forall j :: 0 <= j < i ==> !Contains(text, table[j].0)
  }

  /** The first match, in table order, decides; with no key in the text the
      answer is the default. */
  lemma {:induction false} FirstMatchSpec(table: seq<(string, Topic)>, text: string)
    ensures (exists i :: FirstKeyAt(table, text, i)) ==>
      exists i :: FirstKeyAt(table, text, i) && FirstMatch(table, text) == table[i].1
    ensures (forall j :: 0 <= j < |table| ==> !Contains(text, table[j].0)) ==> FirstMatch(table, text) == Fallback
    decreases |table|
  {
    if table != [] {
      FirstMatchSpec(table[1..], text);
      if Contains(text, table[0].0) {
        assert FirstKeyAt(table, text, 0);
      } else {
        if exists i :: FirstKeyAt(table, text, i) {
          var i :| FirstKeyAt(table, text, i);
          assert i > 0;
          assert FirstKeyAt(table[1..], text, i - 1);
          var k :| FirstKeyAt(table[1..], text, k) && FirstMatch(table[1..], text) == table[1..][k].1;
          assert FirstKeyAt(table, text, k + 1) by {
            forall j | 0 <= j < k + 1
              ensures !Contains(text, table[j].0)
            {
              if j > 0 {
                assert table[j] == table[1..][j - 1];
              }
            }
          }
        }
        if forall j :: 0 <= j < |table| ==> !Contains(text, table[j].0) {
          assert forall j :: 0 <= j < |table[1..]| ==> table[1..][j] == table[j + 1];
        }
      }
    }
  }

  /** A table none of whose entries is the fallback answers with the
      fallback exactly when no key occurs. */
  lemma FallbackIffNoKey(table: seq<(string, Topic)>, text: string)
    requires forall k :: 0 <= k < |table| ==> table[k].1 != Fallback
    ensures FirstMatch(table, text) == Fallback <==> forall j :: 0 <= j < |table| ==> !Contains(text, table[j].0)
  {
    FirstMatchSpec(table, text);
    if exists j :: 0 <= j < |table| && Contains(text, table[j].0) {
      var j :| 0 <= j < |table| && Contains(text, table[j].0);
      FirstKeyExists(table, text, j);
    }
  }

  /** `get_ai_response` answers with the entry of the first key, in table
      order, that occurs in the lowered input, and with the default answer
      exactly when no key occurs. */
  lemma TopicForSpec(userInput: string)
    ensures var text := Lower(userInput);
      (exists i :: FirstKeyAt(Responses(), text, i)) ==>
        exists i :: FirstKeyAt(Responses(), text, i) && TopicFor(userInput) == Responses()[i].1
    ensures TopicFor(userInput) == Fallback <==>
      forall j :: 0 <= j < |Responses()| ==> !Contains(Lower(userInput), Responses()[j].0)
  {
    var table := Responses();
    FirstMatchSpec(table, Lower(userInput));
    FallbackIffNoKey(table, Lower(userInput));
  }

  /** When some key occurs, one of them is the first. */
  lemma {:induction false} FirstKeyExists(table: seq<(string, Topic)>, text: string, j: int)
    requires 0 <= j < |table| && Contains(text, table[j].0)
    ensures exists i :: FirstKeyAt(table, text, i)
    decreases j
  {
    if !FirstKeyAt(table, text, j) {
      var k :| 0 <= k < j && Contains(text, table[k].0);
      FirstKeyExists(table, text, k);
    }
  }

  /** Table order, not the position in the sentence, decides: "hope" comes
      first in the sentence but "prayer" first in the table. */
  lemma TableOrderWins(userInput: string)
    requires Lower(userInput) == "hope and prayer"
    ensures ReplyFor(userInput) == ReplyText(Prayer)
  {
    var text := "hope and prayer";
    NotContainsChar(text, "hello", 2);
    NotContainsChar(text, "how are you", 2);
    ContainsAt(text, "prayer", 9);
  }

  // ---------------------------------------------------------------------------
  // speak_response(text)

  const VoiceFile: Path := "en_US-ryan-medium.onnx"
  const TempResponse: Path := "temp_response.txt"
  const ResponseOutput: Path := "spiritual_response.wav"

  /** Without the voice model, False and nothing touched. Otherwise the text
      is written, piper renders it and aplay plays it; only when both succeed
      are the two files removed and True returned. A failure returns False
      and leaves what was written behind. */
  function Speak(text: string, fs: set<Path>, piperOk: bool, aplayOk: bool): (r: (bool, set<Path>))
    ensures r.0 ==> piperOk && aplayOk
    ensures r.1 - {TempResponse, ResponseOutput} == fs - {TempResponse, ResponseOutput}
  {
    if VoiceFile !in fs then (false, fs)
    else if !piperOk then (false, fs + {TempResponse})
    else if !aplayOk then (false, fs + {TempResponse, ResponseOutput})
    else (true, fs - {TempResponse, ResponseOutput})
  }

  method SpeakResponse(text: string, fs: set<Path>, piperOk: bool, aplayOk: bool) returns (ok: bool, after: set<Path>)
    ensures (ok, after) == Speak(text, fs, piperOk, aplayOk)
  {
    if VoiceFile !in fs {
      return false, fs;
    }
    after := fs + {TempResponse};
    if !piperOk {
      return false, after;
    }
    after := after + {ResponseOutput};
    assert after == fs + {TempResponse, ResponseOutput};
    if !aplayOk {
      return false, after;
    }
    after := after - {TempResponse} - {ResponseOutput};
    assert after == fs - {TempResponse, ResponseOutput};
    ok := true;
  }

  /** True exactly when the model exists and both tools succeed; the two
      scratch files are gone after a success, the text file is left behind
      after a failure of either tool, and nothing else ever changes. */
  lemma SpeakSpec(text: string, fs: set<Path>, piperOk: bool, aplayOk: bool)
    ensures var (ok, after) := Speak(text, fs, piperOk, aplayOk);
      (ok <==> VoiceFile in fs && piperOk && aplayOk) &&
      (VoiceFile !in fs ==> after == fs) &&
      (ok ==> TempResponse !in after && ResponseOutput !in after) &&
      (VoiceFile in fs && !ok ==> TempResponse in after) &&
      after - {TempResponse, ResponseOutput} == fs - {TempResponse, ResponseOutput}
  {
  }

  // ---------------------------------------------------------------------------
  // run_conversation()

  const ExitWords: seq<string> := ["goodbye", "exit", "quit", "stop"]

  const GoodbyeText: string := "Goodbye! May God bless you and keep you. Peace be with you."

  /** The whole lowered input is an exit word. */
  predicate IsExitCommand(userInput: string) {
    Lower(userInput) in ExitWords
  }

  /** Exit words are matched whole, in any case: "STOP" ends the
      conversation, "stop please" does not. */
  lemma ExitIsExact()
    ensures IsExitCommand("STOP")
    ensures !IsExitCommand("stop please")
  {
    assert Lower("STOP") == "stop";
    assert |Lower("stop please")| == 11;
  }

  /** One pass of the loop: nothing understood, the goodbye spoken, or an
      answer given and spoken; with what speaking returned and the filesystem
      as `speak_response` left it. */
  datatype Turn = Skipped | Exited(ok: bool, after: set<Path>) | Answered(reply: string, ok: bool, after: set<Path>)

  function TurnOf(input: Option<string>, fs: set<Path>, renders: set<string>, plays: set<string>): Turn {
    match input
    case None => Skipped
    case Some(userInput) =>
      if IsExitCommand(userInput) then
        var (ok, after) := Speak(GoodbyeText, fs, GoodbyeText in renders, GoodbyeText in plays);
        Exited(ok, after)
      else
        var reply := ReplyFor(userInput);
        var (ok, after) := Speak(reply, fs, reply in renders, reply in plays);
        Answered(reply, ok, after)
  }

  /** What was spoken: an answer, or the goodbye. */
  datatype Said = Reply(text: string) | Goodbye

  /** What a conversation did: the answers given, what was spoken with
      whether speaking succeeded, whether an exit word ended it, and the
      filesystem as `speak_response` left it. */
  datatype Conv = Conv(replies: seq<string>, spoken: seq<(Said, bool)>, exited: bool, after: set<Path>)

  /** Turn by turn until an exit word; running out of inputs means the loop
      is still listening. */
  function Conversation(inputs: seq<Option<string>>, fs: set<Path>, renders: set<string>, plays: set<string>): Conv
    decreases |inputs|
  {
    if inputs == [] then Conv([], [], false, fs)
    else match TurnOf(inputs[0], fs, renders, plays)
      case Skipped => Conversation(inputs[1..], fs, renders, plays)
      case Exited(ok, after) => Conv([], [(Goodbye, ok)], true, after)
      case Answered(reply, ok, after) =>
        Then([reply], [(Reply(reply), ok)], Conversation(inputs[1..], after, renders, plays))
  }

  /** A conversation preceded by answers already given. */
  function Then(replies: seq<string>, spoken: seq<(Said, bool)>, c: Conv): Conv {
    Conv(replies + c.replies, spoken + c.spoken, c.exited, c.after)
  }

  lemma ThenThen(r1: seq<string>, s1: seq<(Said, bool)>, r2: seq<string>, s2: seq<(Said, bool)>, c: Conv)
    ensures Then(r1, s1, Then(r2, s2, c)) == Then(r1 + r2, s1 + s2, c)
  {
    AppendAssoc(r1, r2, c.replies);
    AppendAssoc(s1, s2, c.spoken);
  }

  /** The first input of the remaining ones decides the next turn. */
  lemma ConversationStep(inputs: seq<Option<string>>, i: nat, fs: set<Path>, renders: set<string>, plays: set<string>)
    requires i < |inputs|
    ensures Conversation(inputs[i..], fs, renders, plays) ==
      match TurnOf(inputs[i], fs, renders, plays)
      case Skipped => Conversation(inputs[i + 1..], fs, renders, plays)
      case Exited(ok, after) => Conv([], [(Goodbye, ok)], true, after)
      case Answered(reply, ok, after) =>
        Then([reply], [(Reply(reply), ok)], Conversation(inputs[i + 1..], after, renders, plays))
  {
    assert inputs[i..][0] == inputs[i] && inputs[i..][1..] == inputs[i + 1..];
  }

  /** Some input among the given ones is an exit word. */
  predicate HasExit(inputs: seq<Option<string>>) {
    exists i :: 0 <= i < |inputs| && inputs[i].Some? && IsExitCommand(inputs[i].value)
  }

  lemma HasExitTail(inputs: seq<Option<string>>)
    requires inputs != [] && !(inputs[0].Some? && IsExitCommand(inputs[0].value))
    ensures HasExit(inputs) <==> HasExit(inputs[1..])
  {
    var tail := inputs[1..];
    if HasExit(inputs) {
      var i :| 0 <= i < |inputs| && inputs[i].Some? && IsExitCommand(inputs[i].value);
      assert tail[i - 1] == inputs[i];
    }
    if HasExit(tail) {
      var i :| 0 <= i < |tail| && tail[i].Some? && IsExitCommand(tail[i].value);
      assert inputs[i + 1] == tail[i];
    }
  }

  /** The conversation ends at an exit word and only there. */
  lemma {:induction false} ConversationExits(inputs: seq<Option<string>>, fs: set<Path>, renders: set<string>, plays: set<string>)
    ensures Conversation(inputs, fs, renders, plays).exited <==> HasExit(inputs)
    decreases |inputs|
  {
    if inputs != [] {
      match TurnOf(inputs[0], fs, renders, plays)
      case Skipped =>
        HasExitTail(inputs);
        ConversationExits(inputs[1..], fs, renders, plays);
      case Exited(_, _) =>
        assert inputs[0].Some? && IsExitCommand(inputs[0].value);
      case Answered(_, _, after) =>
        HasExitTail(inputs);
        ConversationExits(inputs[1..], after, renders, plays);
    }
  }

  /** Every answer is spoken once, in the order given, and an exit adds the
      goodbye as the last thing spoken. */
  predicate SpeaksInOrder(c: Conv) {
    |c.spoken| == |c.replies| + (if c.exited then 1 else 0) &&
    (forall k :: 0 <= k < |c.replies| ==> c.spoken[k].0 == Reply(c.replies[k])) &&
    (c.exited ==> c.spoken[|c.spoken| - 1].0 == Goodbye)
  }

  lemma SpeaksInOrderThen(reply: string, ok: bool, rest: Conv)
    requires SpeaksInOrder(rest)
    ensures SpeaksInOrder(Then([reply], [(Reply(reply), ok)], rest))
  {
    var c := Then([reply], [(Reply(reply), ok)], rest);
    forall k | 0 <= k < |c.replies|
      ensures c.spoken[k].0 == Reply(c.replies[k])
    {
      if k > 0 {
        assert c.spoken[k] == rest.spoken[k - 1] && c.replies[k] == rest.replies[k - 1];
      }
    }
  }

  lemma {:induction false} ConversationSpeaksInOrder(inputs: seq<Option<string>>, fs: set<Path>, renders: set<string>, plays: set<string>)
    ensures SpeaksInOrder(Conversation(inputs, fs, renders, plays))
    decreases |inputs|
  {
    if inputs != [] {
      match TurnOf(inputs[0], fs, renders, plays)
      case Skipped =>
        ConversationSpeaksInOrder(inputs[1..], fs, renders, plays);
      case Exited(_, _) =>
      case Answered(reply, ok, after) =>
        ConversationSpeaksInOrder(inputs[1..], after, renders, plays);
        SpeaksInOrderThen(reply, ok, Conversation(inputs[1..], after, renders, plays));
    }
  }

  /** Every answer given is the table's answer to one of the inputs. */
  lemma {:induction false} ConversationRepliesFromInputs(inputs: seq<Option<string>>, fs: set<Path>, renders: set<string>, plays: set<string>)
    ensures forall r :: r in Conversation(inputs, fs, renders, plays).replies ==>
      exists i :: 0 <= i < |inputs| && inputs[i].Some? && r == ReplyFor(inputs[i].value)
    decreases |inputs|
  {
    if inputs != [] {
      var c := Conversation(inputs, fs, renders, plays);
      var tail := inputs[1..];
      match TurnOf(inputs[0], fs, renders, plays)
      case Skipped =>
        ConversationRepliesFromInputs(tail, fs, renders, plays);
        assert c == Conversation(tail, fs, renders, plays);
        ReplyInTail(inputs, c.replies);
      case Exited(_, _) =>
      case Answered(reply, ok, after) =>
        var rest := Conversation(tail, after, renders, plays);
        ConversationRepliesFromInputs(tail, after, renders, plays);
        assert c.replies == [reply] + rest.replies;
        ReplyInTail(inputs, rest.replies);
        assert inputs[0].Some? && reply == ReplyFor(inputs[0].value);
    }
  }

  /** Answers drawn from the inputs after the first are drawn from the inputs. */
  lemma ReplyInTail(inputs: seq<Option<string>>, replies: seq<string>)
    requires inputs != []
    requires forall r :: r in replies ==> exists i :: 0 <= i < |inputs[1..]| && inputs[1..][i].Some? && r == ReplyFor(inputs[1..][i].value)
    ensures forall r :: r in replies ==> exists i :: 0 <= i < |inputs| && inputs[i].Some? && r == ReplyFor(inputs[i].value)
  {
    forall r | r in replies
      ensures exists i :: 0 <= i < |inputs| && inputs[i].Some? && r == ReplyFor(inputs[i].value)
    {
      var i :| 0 <= i < |inputs[1..]| && inputs[1..][i].Some? && r == ReplyFor(inputs[1..][i].value);
      assert inputs[i + 1] == inputs[1..][i];
    }
  }

  // ---------------------------------------------------------------------------
  // the loading cues a conversation records

  /** The cue dispatches recorded in one turn: only an answered turn runs
      `process_with_loading`, twice. */
  function TurnCues(input: Option<string>, cue: (CueProgress, CueProgress)): seq<Playback> {
    if input.None? || IsExitCommand(input.value) then []
    else CuePlayed(cue.0) + CuePlayed(cue.1)
  }

  /** The cue dispatches recorded turn by turn, up to an exit word. */
  function ConversationCues(inputs: seq<Option<string>>, cues: seq<(CueProgress, CueProgress)>): seq<Playback>
    requires |cues| == |inputs|
    decreases |inputs|
  {
    if inputs == [] then []
    else if inputs[0].Some? && IsExitCommand(inputs[0].value) then []
    else TurnCues(inputs[0], cues[0]) + ConversationCues(inputs[1..], cues[1..])
  }

  /** The loading system after one pass of the loop: an answered turn puts
      two loading overlays on it, the answer's and then the speech's; a
      skipped turn and the goodbye leave it alone. */
  function TurnLoading(s: State, input: Option<string>, cue: (CueProgress, CueProgress)): State {
    if input.None? || IsExitCommand(input.value) then s
    else ProcessStep(ProcessStep(s, cue.0), cue.1)
  }

  /** The loading system after the loop over `inputs`, up to an exit word. */
  function ConversationLoading(s: State, inputs: seq<Option<string>>, cues: seq<(CueProgress, CueProgress)>): State
    requires |cues| == |inputs|
    decreases |inputs|
  {
    if inputs == [] then s
    else if inputs[0].Some? && IsExitCommand(inputs[0].value) then s
    else ConversationLoading(TurnLoading(s, inputs[0], cues[0]), inputs[1..], cues[1..])
  }

  lemma ConversationLoadingStep(s: State, inputs: seq<Option<string>>, cues: seq<(CueProgress, CueProgress)>, i: nat)
    requires |cues| == |inputs| && i < |inputs|
    ensures ConversationLoading(s, inputs[i..], cues[i..]) ==
      if inputs[i].Some? && IsExitCommand(inputs[i].value) then s
      else ConversationLoading(TurnLoading(s, inputs[i], cues[i]), inputs[i + 1..], cues[i + 1..])
  {
    assert inputs[i..][0] == inputs[i] && inputs[i..][1..] == inputs[i + 1..];
    assert cues[i..][0] == cues[i] && cues[i..][1..] == cues[i + 1..];
  }

  /** One pass records its turn's cue dispatches; an answered pass leaves no
      cue flagged as playing, has started two threads, and the speech's cue
      thread is the current one; any other pass changes nothing. */
  lemma TurnLoadingSpec(s: State, input: Option<string>, cue: (CueProgress, CueProgress))
    ensures var r := TurnLoading(s, input, cue);
      r.playbacks == s.playbacks + TurnCues(input, cue) &&
      (input.None? || IsExitCommand(input.value) ==> r == s) &&
      (input.Some? && !IsExitCommand(input.value) ==>
        !r.isPlaying && r.nextThread == s.nextThread + 2 &&
        r.soundThread == Some(SoundThread(r.nextThread - 1, DefaultConfig, None)))
  {
    ProcessTwiceSpec(s, cue.0, cue.1);
  }

  /** Two threads per answer, and the last answer's speech cue is current:
      an answered pass followed by the rest of the conversation. */
  lemma LoadingAfterAnswer(s: State, s1: State, r: State, turnCues: seq<Playback>, restCues: seq<Playback>, n: nat)
    requires s1.playbacks == s.playbacks + turnCues && !s1.isPlaying && s1.nextThread == s.nextThread + 2
    requires s1.soundThread == Some(SoundThread(s1.nextThread - 1, DefaultConfig, None))
    requires r.playbacks == s1.playbacks + restCues && r.nextThread == s1.nextThread + 2 * n
    requires n > 0 ==> !r.isPlaying && r.soundThread == Some(SoundThread(r.nextThread - 1, DefaultConfig, None))
    requires n == 0 ==> r == s1
    ensures r.playbacks == s.playbacks + (turnCues + restCues) && r.nextThread == s.nextThread + 2 * (n + 1)
    ensures !r.isPlaying && r.soundThread == Some(SoundThread(r.nextThread - 1, DefaultConfig, None))
  {
    AppendAssoc(s.playbacks, turnCues, restCues);
  }

  /** How many turns get an answer: every input that was understood, up to
      an exit word. */
  function Answers(inputs: seq<Option<string>>): nat
    decreases |inputs|
  {
    if inputs == [] then 0
    else if inputs[0].Some? && IsExitCommand(inputs[0].value) then 0
    else (if inputs[0].Some? then 1 else 0) + Answers(inputs[1..])
  }

  /** A conversation gives one answer per understood input before the exit
      word, whatever the filesystem and the speech tools do. */
  lemma {:induction false} AnswersCount(inputs: seq<Option<string>>, fs: set<Path>, renders: set<string>, plays: set<string>)
    ensures |Conversation(inputs, fs, renders, plays).replies| == Answers(inputs)
    decreases |inputs|
  {
    if inputs != [] {
      match TurnOf(inputs[0], fs, renders, plays)
      case Skipped =>
        AnswersCount(inputs[1..], fs, renders, plays);
      case Exited(_, _) =>
      case Answered(reply, ok, after) =>
        AnswersCount(inputs[1..], after, renders, plays);
    }
  }

  /** Over a whole conversation: the record gains exactly the conversation's
      cue dispatches, two threads are started per answer given, and after the
      last answer no cue is flagged as playing and that answer's speech cue
      thread is the current one; a conversation without answers leaves the
      loading system as it was. */
  lemma {:induction false} ConversationLoadingSpec(s: State, inputs: seq<Option<string>>, cues: seq<(CueProgress, CueProgress)>)
    requires |cues| == |inputs|
    ensures var r, n := ConversationLoading(s, inputs, cues), Answers(inputs);
      r.playbacks == s.playbacks + ConversationCues(inputs, cues) &&
      r.nextThread == s.nextThread + 2 * n &&
      (n > 0 ==> !r.isPlaying && r.soundThread == Some(SoundThread(r.nextThread - 1, DefaultConfig, None))) &&
      (n == 0 ==> r == s)
    decreases |inputs|
  {
    if inputs == [] {
      assert s.playbacks + [] == s.playbacks;
    } else if inputs[0].Some? && IsExitCommand(inputs[0].value) {
      assert s.playbacks + [] == s.playbacks;
    } else {
      var s1, tail, rest := TurnLoading(s, inputs[0], cues[0]), inputs[1..], cues[1..];
      TurnLoadingSpec(s, inputs[0], cues[0]);
      ConversationLoadingSpec(s1, tail, rest);
      if inputs[0].None? {
        assert TurnCues(inputs[0], cues[0]) == [];
      } else {
        LoadingAfterAnswer(s, s1, ConversationLoading(s1, tail, rest),
                           TurnCues(inputs[0], cues[0]), ConversationCues(tail, rest), Answers(tail));
      }
    }
  }

  /** Every cue dispatch recorded during a conversation is the spoken
      "Processing your request...", at most two per answer given, and there
      is none at all when no cue thread got through its body before its stop. */
  lemma {:induction false} ConversationCuesSpec(inputs: seq<Option<string>>, cues: seq<(CueProgress, CueProgress)>,
                                                fs: set<Path>, renders: set<string>, plays: set<string>)
    requires |cues| == |inputs|
    ensures forall p :: p in ConversationCues(inputs, cues) ==> p == ProcessingCue
    ensures |ConversationCues(inputs, cues)| <= 2 * |Conversation(inputs, fs, renders, plays).replies|
    ensures (forall k :: 0 <= k < |cues| ==> cues[k].0 != Finished && cues[k].1 != Finished) ==>
      ConversationCues(inputs, cues) == []
    decreases |inputs|
  {
    if inputs != [] {
      var tail, rest := inputs[1..], cues[1..];
      assert forall k :: 0 <= k < |rest| ==> rest[k] == cues[k + 1];
      match TurnOf(inputs[0], fs, renders, plays)
      case Skipped =>
        ConversationCuesSpec(tail, rest, fs, renders, plays);
      case Exited(_, _) =>
      case Answered(reply, ok, after) =>
        ConversationCuesSpec(tail, rest, after, renders, plays);
    }
  }

  // ---------------------------------------------------------------------------
  // the assistant object

  class SpiritualAssistant {
    const loadingSystem: LoadingSoundSystem

    constructor()
      ensures fresh(loadingSystem) && loadingSystem.Snapshot() == Initial()
    {
      loadingSystem := new LoadingSoundSystem();
    }

    /** `process_with_loading` delegates to the loading system and returns
      what it returns. */
    method ProcessWithLoading<R>(outcome: Outcome<R>, progress: CueProgress) returns (r: Outcome<R>)
      modifies loadingSystem
      ensures r == outcome
      ensures loadingSystem.Snapshot() == ProcessStep(old(loadingSystem.Snapshot()), progress)
      ensures !loadingSystem.isPlaying && loadingSystem.playbacks == old(loadingSystem.playbacks) + CuePlayed(progress)
    {
      r := loadingSystem.ProcessWithLoading(outcome, progress);
    }

    /** One pass of the `while True` loop. An answer is computed and then
      spoken, each under the loading overlay (`answerCue` and `speakCue` say
      how far each call's cue got); the loading system ends as `TurnLoading`
      says, so, by `TurnLoadingSpec`, no cue is flagged as playing, two
      threads were started and the cue's dispatch is recorded once for each
      call whose cue thread got through before the stop; a skipped turn or
      the goodbye leaves the loading system alone. */
    method TakeTurn(input: Option<string>, fs: set<Path>, renders: set<string>, plays: set<string>,
                    answerCue: CueProgress, speakCue: CueProgress)
      returns (turn: Turn)
      modifies loadingSystem
      ensures turn == TurnOf(input, fs, renders, plays)
      ensures loadingSystem.Snapshot() == TurnLoading(old(loadingSystem.Snapshot()), input, (answerCue, speakCue))
    {
      if input.None? {
        return Skipped;
      }
      var userInput := input.value;
      if IsExitCommand(userInput) {
        var ok, after := SpeakResponse(GoodbyeText, fs, GoodbyeText in renders, GoodbyeText in plays);
        return Exited(ok, after);
      }
      var reply, ok, after := AnswerAndSpeak(userInput, fs, renders, plays, answerCue, speakCue);
      turn := Answered(reply, ok, after);
    }

    /** The rest of the pass after an input that is no exit word: the answer
      is computed under the loading overlay, and, being never empty, spoken
      under a second one. */
    method AnswerAndSpeak(userInput: string, fs: set<Path>, renders: set<string>, plays: set<string>,
                          answerCue: CueProgress, speakCue: CueProgress)
      returns (reply: string, ok: bool, after: set<Path>)
      modifies loadingSystem
      ensures reply == ReplyFor(userInput) && reply != ""
      ensures (ok, after) == Speak(reply, fs, reply in renders, reply in plays)
      ensures loadingSystem.Snapshot() == ProcessStep(ProcessStep(old(loadingSystem.Snapshot()), answerCue), speakCue)
    {
      var answer := GetAiResponse(userInput);
      var answered := ProcessWithLoading(Returned(answer), answerCue);
      reply := answered.value;
      ReplyTextNonEmpty(TopicFor(userInput));
      ok, after := SpeakResponse(reply, fs, reply in renders, reply in plays);
      var spokenOutcome := ProcessWithLoading(Returned(ok), speakCue);
    }

    /** The `while True` loop over the given turns, until an exit word;
      `cues` gives, turn by turn, how far the two loading cues of that turn
      got. The loading system ends as the passes, one after the other, leave
      it. */
    method RunConversation(inputs: seq<Option<string>>, fs: set<Path>, renders: set<string>, plays: set<string>,
                           cues: seq<(CueProgress, CueProgress)>)
      returns (c: Conv)
      requires |cues| == |inputs|
      modifies loadingSystem
      ensures c == Conversation(inputs, fs, renders, plays)
      ensures loadingSystem.Snapshot() == ConversationLoading(old(loadingSystem.Snapshot()), inputs, cues)
      ensures loadingSystem.playbacks == old(loadingSystem.playbacks) + ConversationCues(inputs, cues)
      ensures loadingSystem.nextThread == old(loadingSystem.nextThread) + 2 * |c.replies|
      ensures c.replies != [] ==>
        !loadingSystem.isPlaying &&
        loadingSystem.soundThread == Some(SoundThread(loadingSystem.nextThread - 1, DefaultConfig, None))
      ensures c.replies == [] ==> loadingSystem.Snapshot() == old(loadingSystem.Snapshot())
    {
      ghost var start := loadingSystem.Snapshot();
      ConversationLoadingSpec(start, inputs, cues);
      AnswersCount(inputs, fs, renders, plays);
      var replies: seq<string> := [];
      var spoken: seq<(Said, bool)> := [];
      var after := fs;
      var i := 0;
      while i < |inputs|
        invariant 0 <= i <= |inputs|
        invariant Conversation(inputs, fs, renders, plays) == Then(replies, spoken, Conversation(inputs[i..], after, renders, plays))
        invariant ConversationLoading(start, inputs, cues) == ConversationLoading(loadingSystem.Snapshot(), inputs[i..], cues[i..])
      {
        ConversationStep(inputs, i, after, renders, plays);
        ConversationLoadingStep(loadingSystem.Snapshot(), inputs, cues, i);
        var turn := TakeTurn(inputs[i], after, renders, plays, cues[i].0, cues[i].1);
        match turn {
          case Skipped =>
          case Exited(ok, afterGoodbye) =>
            c := Then(replies, spoken, Conv([], [(Goodbye, ok)], true, afterGoodbye));
            return;
          case Answered(reply, ok, afterReply) =>
            ThenThen(replies, spoken, [reply], [(Reply(reply), ok)], Conversation(inputs[i + 1..], afterReply, renders, plays));
            replies, spoken, after := replies + [reply], spoken + [(Reply(reply), ok)], afterReply;
        }
        i := i + 1;
      }
      c := Then(replies, spoken, Conv([], [], false, after));
    }
  }
}
