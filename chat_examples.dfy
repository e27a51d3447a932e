/**
 * Worked lines: a tagged and an untagged chat message, one with an empty display name,
 * one whose text is only white space, and a keep-alive PING.
 */
module ChatExamples {
  import opened Wrappers
  import opened Text
  import opened ChatParse
  import opened ChatFormat
  import opened ChatReader

  /** `@color=;display-name=Foo;user-type= :bar!bar@bar.tmi.twitch.tv PRIVMSG #c :hello`. */
  lemma TaggedScenario()
    ensures ParseMessage(PrivmsgLine(DisplayNameTags("color=;", "Foo", "user-type="), "bar", "c", "hello"))
      == Some(ChatMessage("Foo", "hello"))
  {
    ParseTaggedLine("color=;", "Foo", "user-type=", "bar", "c", "hello");
    TrimPlainText();
  }

  /** `@color=;display-name=;user-type= :bar!bar@bar.tmi.twitch.tv PRIVMSG #c :hello`: the nick. */
  lemma EmptyNameScenario()
    ensures ParseMessage(PrivmsgLine(DisplayNameTags("color=;", "", "user-type="), "bar", "c", "hello"))
      == Some(ChatMessage("bar", "hello"))
  {
    ParseEmptyNameLine("color=;", "user-type=", "bar", "c", "hello");
    TrimPlainText();
  }

  /** `hello` has no white space to trim. */
  lemma TrimPlainText()
    ensures Trim("hello") == "hello"
  {
    TrimOfTrimmed("hello");
  }

  /** Trimming takes the spaces off both ends of `  hi `. */
  lemma TrimSpacedText()
    ensures Trim("  hi ") == "hi"
  {
    var s := "  hi ";
    assert IsWhiteSpace(s[0]) && IsWhiteSpace(s[1]) && IsWhiteSpace(s[4]);
    assert !IsWhiteSpace(s[2]) && !IsWhiteSpace(s[3]);
    TrimCharacterized(s, 2, 4);
    assert s[2..4] == "hi";
  }

  /** `:bar!bar@bar.tmi.twitch.tv PRIVMSG #c :  hi ` is parsed with the text trimmed. */
  lemma UntaggedScenario()
    ensures ParseMessage(PrivmsgLine("", "bar", "c", "  hi ")) == Some(ChatMessage("bar", "hi"))
  {
    assert IsLogin("bar") && IsLogin("c");
    assert '\n' !in "  hi " && '=' !in "  hi ";
    ParseUntaggedLine("bar", "c", "  hi ");
    TrimSpacedText();
  }

  /** A text of white space only still gives a message, with empty content. */
  lemma BlankScenario()
    ensures ParseMessage(PrivmsgLine("", "a", "c", " ")) == Some(ChatMessage("a", ""))
  {
    ParseUntaggedLine("a", "c", " ");
    TrimCharacterized(" ", 0, 0);
  }

  const PingLine: string := "PING :tmi.twitch.tv\r\n"

  /** `PING :tmi.twitch.tv` is not a chat message. */
  lemma PingNotParsed()
    ensures ParseMessage(PingLine) == None
  {
    assert 'R' !in PingLine;
    NotParsedWithout(PingLine);
  }

  /** Nobody kills the reader and every send and write succeeds. */
  function Quiet(): Env {
    Env(_ => false, _ => false, _ => true, _ => true)
  }

  /**
   * The reader answers `PING :tmi.twitch.tv` with one PONG, forwards nothing, and then
   * stops when the stream closes.
   */
  lemma PingScenario()
    ensures Run(Relay, Quiet(), [Line(PingLine)]) == Outcome([Pong], Closed)
    ensures PongWrites(Relay, [Pong]) == ["PONG\r\n"] && Delivered([Pong]) == []
  {
    var input := [Line(PingLine)];
    var step := Steps(Relay, Quiet(), input);
    assert StartsWith(PingLine, PingPrefix);
    assert step(0) == Go(Pong);
    assert step(1) == Halt(Closed);
    assert RunFrom(step, 1, 1) == Outcome([], Closed);
    assert RunFrom(step, 0, 1) == Outcome([Pong], Closed);
    assert [Pong][..0] == [];
  }
}
