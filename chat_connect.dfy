/**
 * The registration lines that `connect_to_twitch_chat` writes after opening the
 * connection: PASS, NICK and JOIN (sections 3.1.1, 3.1.2 and 3.2.1 of RFC 2812)
 * followed by an IRCv3 capability request.
 */
module ChatConnect {
  import opened Wrappers
  import opened Text

  /** Twitch accepts any `justinfan<number>` nick for anonymous read-only access. */
  const DefaultNickname: string := "justinfan12345"
  const PassLine: string := "PASS SCHMOOPIIE\r\n"
  /** The IRCv3 capabilities requested: message tags, Twitch commands and membership events. */
  const CapLine: string :=
    "CAP REQ " + ":twitch.tv/tags" + " twitch.tv/commands" + " twitch.tv/membership" + "\r\n"

  /** Rust's `channel.trim_start_matches('#')`: drop every leading `#`. */
  function TrimLeadingHashes(channel: string): (r: string)
    ensures |r| <= |channel| && r == channel[|channel| - |r|..]
    ensures forall k :: 0 <= k < |channel| - |r| ==> channel[k] == '#'
    ensures r == [] || r[0] != '#'
  {
    if channel != [] && channel[0] == '#' then TrimLeadingHashes(channel[1..]) else channel
  }

  function NickLine(nickname: Option<string>): string {
    "NICK " + nickname.GetOr(DefaultNickname) + "\r\n"
  }

  function JoinLine(channel: string): string {
    "JOIN #" + TrimLeadingHashes(channel) + "\r\n"
  }

  /** The lines written to the socket, in order, before the stream is flushed. */
  function HandshakeLines(channel: string, nickname: Option<string>): seq<string> {
    [PassLine, NickLine(nickname), JoinLine(channel), CapLine]
  }

  /** `n` copies of `#`. */
  function Hashes(n: nat): (h: string)
    ensures |h| == n && forall k :: 0 <= k < n ==> h[k] == '#'
  {
    if n == 0 then [] else "#" + Hashes(n - 1)
  }

  lemma PassLineShape()
    ensures StartsWith(PassLine, "PASS ") && EndsWith(PassLine, "\r\n")
  {
    StartsWithAppend("PASS ", "SCHMOOPIIE\r\n");
    EndsWithAppend("PASS SCHMOOPIIE", "\r\n");
  }

  lemma NickLineShape(nickname: Option<string>)
    ensures StartsWith(NickLine(nickname), "NICK ") && EndsWith(NickLine(nickname), "\r\n")
  {
    var n := nickname.GetOr(DefaultNickname);
    assert NickLine(nickname) == "NICK " + (n + "\r\n");
    StartsWithAppend("NICK ", n + "\r\n");
    EndsWithAppend("NICK " + n, "\r\n");
  }

  lemma JoinLineShape(channel: string)
    ensures StartsWith(JoinLine(channel), "JOIN #") && EndsWith(JoinLine(channel), "\r\n")
  {
    var c := TrimLeadingHashes(channel);
    assert JoinLine(channel) == "JOIN #" + (c + "\r\n");
    StartsWithAppend("JOIN #", c + "\r\n");
    EndsWithAppend("JOIN #" + c, "\r\n");
  }

  lemma CapLineShape()
    ensures StartsWith(CapLine, "CAP REQ ") && EndsWith(CapLine, "\r\n")
  {
    var caps := ":twitch.tv/tags" + " twitch.tv/commands" + " twitch.tv/membership";
    assert CapLine == "CAP REQ " + (caps + "\r\n");
    StartsWithAppend("CAP REQ ", caps + "\r\n");
    EndsWithAppend("CAP REQ " + caps, "\r\n");
  }

  /** Four lines, in the order PASS, NICK, JOIN, CAP REQ, each ended by CR LF. */
  lemma HandshakeOrder(channel: string, nickname: Option<string>)
    ensures var lines := HandshakeLines(channel, nickname);
      |lines| == 4
      && StartsWith(lines[0], "PASS ") && StartsWith(lines[1], "NICK ")
      && StartsWith(lines[2], "JOIN #") && StartsWith(lines[3], "CAP REQ ")
      && EndsWith(lines[0], "\r\n") && EndsWith(lines[1], "\r\n")
      && EndsWith(lines[2], "\r\n") && EndsWith(lines[3], "\r\n")
  {
    var lines := HandshakeLines(channel, nickname);
    assert lines[0] == PassLine && lines[1] == NickLine(nickname);
    assert lines[2] == JoinLine(channel) && lines[3] == CapLine;
    PassLineShape();
    NickLineShape(nickname);
    JoinLineShape(channel);
    CapLineShape();
  }

  /** Without a nickname the anonymous default is used; otherwise the given one, verbatim. */
  lemma NickChoice(channel: string, nickname: Option<string>)
    ensures nickname.None? ==> HandshakeLines(channel, nickname)[1] == "NICK " + DefaultNickname + "\r\n"
    ensures nickname.Some? ==> HandshakeLines(channel, nickname)[1] == "NICK " + nickname.value + "\r\n"
  {
  }

  /** Stripping leading `#` twice is stripping them once. */
  lemma TrimLeadingHashesIdempotent(channel: string)
    ensures TrimLeadingHashes(TrimLeadingHashes(channel)) == TrimLeadingHashes(channel)
  {
  }

  /** Dropping a prefix made only of `#` makes no difference to what is left. */
  lemma {:induction false} TrimLeadingHashesAbsorbs(channel: string, k: nat)
    requires k <= |channel|
    requires forall i :: 0 <= i < k ==> channel[i] == '#'
    ensures TrimLeadingHashes(channel) == TrimLeadingHashes(channel[k..])
  {
    if k > 0 {
      assert channel[1..][k - 1..] == channel[k..];
      TrimLeadingHashesAbsorbs(channel[1..], k - 1);
    }
  }

  /**
   * Any number of leading `#` on the channel name gives the same handshake, so
   * `foo`, `#foo` and `##foo` all join `#foo`.
   */
  lemma LeadingHashesIgnored(channel: string, nickname: Option<string>, n: nat)
    ensures HandshakeLines(Hashes(n) + channel, nickname) == HandshakeLines(channel, nickname)
  {
    var c := Hashes(n) + channel;
    assert c[n..] == channel;
    TrimLeadingHashesAbsorbs(c, n);
  }

  /**
   * The channel is some leading `#` followed by what the JOIN line names, and a channel
   * given without `#` is joined as `#` followed by the name unchanged.
   */
  lemma JoinNamesChannel(channel: string, nickname: Option<string>)
    ensures channel == Hashes(|channel| - |TrimLeadingHashes(channel)|) + TrimLeadingHashes(channel)
    ensures channel == [] || channel[0] != '#' ==>
      HandshakeLines(channel, nickname)[2] == "JOIN #" + channel + "\r\n"
  {
    var r := TrimLeadingHashes(channel);
    var h := Hashes(|channel| - |r|);
    assert channel == h + r;
  }
}
