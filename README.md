# Twitch chat ingest, in Dafny

This project models the Twitch chat handling of twitch-tools, found in
`src-tauri/src/chat.rs`. It has three parts:

- **Parsing.** `parse_message` turns one raw IRC line into a chat message, which is a
  username and a content, or into nothing. The line is an RFC 2812 message with IRCv3
  tags.
- **Handshake.** `connect_to_twitch_chat` writes its registration lines: PASS, NICK,
  JOIN and a CAP REQ.
- **Reader loops.** `start_twitch_chat_reader` relays each parsed line to the speech
  queue. `test_function` prints each parsed line instead. Both answer keep-alive PINGs.

The modules are:

- `Text` (`text.dfy`) holds the Rust string operations the code relies on:
  - `starts_with`;
  - the greedy run of a negated character class;
  - `str::trim`, over the Unicode White_Space set that `char::is_whitespace` uses.
- `ChatParse` (`chat_parse.dfy`) holds `parse_message`. It follows the three regexes
  `display-name=([^;]+)`, `:([^!]+)!` and `PRIVMSG [^:]+:(.+)` exactly:
  - a predicate says whether a pattern matches at a start index;
  - a leftmost search picks the first such index, as the regex crate's leftmost-first
    search does;
  - a capture function gives group 1.
- `ChatFormat` (`chat_format.dfy`) builds PRIVMSG lines of two layouts. An untagged line
  is `:nick!nick@nick.tmi.twitch.tv PRIVMSG #chan :text` CR LF. A tagged line puts
  `@pre` `display-name=name;` `post` and a space in front of it, where `pre` and `post`
  stand for the tags before and after the display name, each under the conditions the
  lemmas state. It proves the round trips that parsing them gives back:
  - the display name when the line carries one;
  - the nick otherwise, and also when the display-name tag is empty;
  - the trimmed text as the content.
- `ChatConnect` (`chat_connect.dfy`) holds the four handshake lines. This covers the
  default anonymous nick and the `#` stripping of the channel name.
- `ChatReader` (`chat_reader.dfy`) holds both reader loops.
  - `Step` is one turn of the loop as a function. `Run` is the loop up to the first turn
    that stops.
  - `ReadChat` and `EchoChat` are the loops themselves, written as `while` loops. They
    are proved to produce exactly what `Run` records: the PONG writes, the forwarded or
    printed texts, the stop reason and the `Ok`/`Err` result.
  - The lemmas state the following properties of `Run`:
    - forwarding happens in input order;
    - every PING gets exactly one PONG and is never parsed;
    - the kill flag is honoured at both of its checks;
    - the loop stops for exactly the listed reasons.
- `ChatExamples` (`chat_examples.dfy`) works through concrete lines:
  - a tagged message;
  - an untagged message;
  - a message with an empty display name;
  - a message whose text is only white space;
  - a PING, which the loop answers.

The socket is a sequence of `read_line` results: a line, 0 bytes, or an error. A read
past the end of the sequence is end of stream. Some values come from outside the loop,
and the model takes them as functions of the line index:

- the kill flag at its two checks;
- whether the send to the speech queue succeeds;
- whether the PONG write and flush succeed.

Three behaviours of the code are worth knowing when reading the lemmas:

- **Empty display name.** An empty `display-name=` tag does not match
  `display-name=([^;]+)`. The username then falls back to the message source (see
  `ChatFormat.ParseEmptyNameLine`).
- **The fallback can start inside the tags.** The fallback takes the leftmost `:` that
  is followed by a character other than `!` and later by a `!`. That colon may lie
  inside an earlier tag value.
- **The text can be mistaken for a tag.** A `display-name=` inside the message text of an
  untagged line, or of a line whose display-name tag is empty, would be taken as the
  username. This is why the untagged round trips require a text without `=`.

In `start_twitch_chat_reader` and `test_function`, a read error only prints a message
and ends the loop, and the function returns `Ok(())` (`src-tauri/src/chat.rs:112-119`
and `172-179`). The model does the same: `ChatReader.Succeeded` is false only for a
failed PONG write, and `ChatReader.StopReason` names the read that ends the loop.

## Model

| member | source | states |
|---|---|---|
| Text.RunEnd | src-tauri/src/chat.rs:15-17 | the greedy run of a negated class `[^c]*` from `from` ends at the first `c` at or after `from`, or at the end of the line; nothing before that is `c` |
| Text.SkipWhiteSpace | src-tauri/src/chat.rs:74 | the scan that `trim` does from the front stops at the first character that is not white space, and everything it passed is white space |
| Text.SkipWhiteSpaceBack | src-tauri/src/chat.rs:74 | the scan that `trim` does from the back stops after the last character that is not white space, and everything it passed is white space |
| Text.Trim | src-tauri/src/chat.rs:74 | neither end of a trimmed string is white space |
| Text.TrimRemovesOnlyWhiteSpace | src-tauri/src/chat.rs:74 | `trim` returns a slice of its input and removes only white space from either end |
| Text.TrimCharacterized | src-tauri/src/chat.rs:74 | any slice with only white space outside it and non-white-space ends (or empty when the input is all white space) is the trim: `trim` is fully determined |
| Text.TrimIgnoresTrailingWhiteSpace | src-tauri/src/chat.rs:74 | appending one white-space character (the CR of a CR LF line) does not change the trim |
| Text.TrimOfTrimmed | src-tauri/src/chat.rs:74 | a string without white space at its ends is its own trim |
| Text.TrimIdempotent | src-tauri/src/chat.rs:74 | trimming twice is trimming once |
| Text.TrimKeepsOnlyCharsOf | src-tauri/src/chat.rs:74 | `trim` adds no character: a character absent from the input is absent from the result |
| ChatParse.Leftmost | src-tauri/src/chat.rs:60-72 | an unanchored search returns the first start index where its pattern matches, and `None` exactly when it matches nowhere |
| ChatParse.DisplayNameCapture | src-tauri/src/chat.rs:15 | group 1 of `display-name=([^;]+)` is non-empty, holds no `;`, directly follows the key and ends at a `;` or at the end of the line |
| ChatParse.SourceCapture | src-tauri/src/chat.rs:16 | group 1 of `:([^!]+)!` is non-empty, holds no `!`, directly follows the colon and is directly followed by a `!` |
| ChatParse.PayloadCapture | src-tauri/src/chat.rs:17 | group 1 of `PRIVMSG [^:]+:(.+)` is non-empty, holds no newline, starts after the first colon that follows the key and runs to the end of the line or to a newline |
| ChatParse.FirstDisplayName | src-tauri/src/chat.rs:60 | the display-name regex matches at the index returned and at no earlier index; with `None` it matches nowhere |
| ChatParse.FirstSource | src-tauri/src/chat.rs:64-66 | the source regex matches at the index returned and at no earlier index; with `None` it matches nowhere |
| ChatParse.FirstPrivmsg | src-tauri/src/chat.rs:71-73 | the PRIVMSG regex matches at the index returned and at no earlier index; with `None` it matches nowhere |
| ChatParse.ParseDefinedIff | src-tauri/src/chat.rs:76-80 | a line gives a message if and only if the PRIVMSG regex matches and one of the two name regexes matches; with no PRIVMSG match it gives `None` whatever names it carries |
| ChatParse.DisplayNameWins | src-tauri/src/chat.rs:59-61 | when the display-name regex first matches at `i`, the username is that capture, whatever the message source says |
| ChatParse.SourceNameFallback | src-tauri/src/chat.rs:62-68 | with no display-name match, the username is the capture of the leftmost `:nick!` match |
| ChatParse.UsernameShape | src-tauri/src/chat.rs:59-68 | a parsed username is non-empty; it holds no `;` when a display-name match exists and no `!` otherwise |
| ChatParse.ContentTrimmed | src-tauri/src/chat.rs:70-74 | a parsed content is its own trim, has no white space at either end and holds no newline; it may be empty |
| ChatFormat.NoDisplayNameWithout | src-tauri/src/chat.rs:15 | a line without `=` has no display-name match |
| ChatFormat.NotParsedWithout | src-tauri/src/chat.rs:71-80 | a line without `R` has no PRIVMSG match and so gives no message |
| ChatFormat.UsernameFromTag | src-tauri/src/chat.rs:59-61 | when the display-name key occurs at `i` with no display-name match before it, the username is the value up to the next `;` or the end of the line |
| ChatFormat.UsernameFromSource | src-tauri/src/chat.rs:62-68 | with no display-name match, and a first colon followed by text up to a `!`, the username is that text |
| ChatFormat.UsernameFromPrefix | src-tauri/src/chat.rs:62-68 | a line with no display-name match that starts with `:nick!` has username `nick` |
| ChatFormat.PayloadAt | src-tauri/src/chat.rs:17 | the PRIVMSG regex matches where the key is followed by a colon-free run, a colon and a newline-free payload, and it captures that payload |
| ChatFormat.ContentAt | src-tauri/src/chat.rs:70-74 | with no earlier PRIVMSG match, the content is the payload of the match at `i`, trimmed |
| ChatFormat.ContentFromLayout | src-tauri/src/chat.rs:70-74 | the content of a line laid out as `… PRIVMSG #chan :text` CR LF is the trimmed text; the CR is trimmed away |
| ChatFormat.PrivmsgLineContent | src-tauri/src/chat.rs:70-74 | a chat line whose tags hold no PRIVMSG match has its trimmed text as content |
| ChatFormat.UntaggedNoDisplayName | src-tauri/src/chat.rs:60 | an untagged chat line whose text holds no `=` has no display-name match |
| ChatFormat.UntaggedUsername | src-tauri/src/chat.rs:62-68 | the username of an untagged chat line whose text holds no `=` is the sender's nick |
| ChatFormat.ParseUntaggedLine | src-tauri/src/chat.rs:58-81 | round trip: an untagged chat line gives back the sender's nick and the trimmed text |
| ChatFormat.NoPrivmsgBeforeSpace | src-tauri/src/chat.rs:17 | when the first space of a line is at `T - 1`, is not preceded by `PRIVMSG` and is followed by seven non-space characters, no PRIVMSG match starts before `T` |
| ChatFormat.NoPrivmsgInTags | src-tauri/src/chat.rs:17 | no PRIVMSG match can start inside the tags of a tagged chat line whose tags hold no space and whose last tag does not end in `PRIVMSG` |
| ChatFormat.NoDisplayNameBefore | src-tauri/src/chat.rs:15 | when the tags before the display-name key at `i` hold no copy of the key, no display-name match starts before `i` |
| ChatFormat.TaggedUsername | src-tauri/src/chat.rs:59-61 | a line that starts with tags holding a non-empty display name, with no display-name key in the tags before it, has that display name as its username |
| ChatFormat.ParseTaggedLine | src-tauri/src/chat.rs:58-81 | round trip: a tagged chat line gives back the display name, whatever the nick and the other tags, and the trimmed text |
| ChatFormat.NoDisplayNameInEmptyTags | src-tauri/src/chat.rs:15 | an empty display-name tag does not match `display-name=([^;]+)`, and neither does anything up to the end of the tags when the tags after it hold no copy of the key |
| ChatFormat.NoDisplayNameFrom | src-tauri/src/chat.rs:15 | no display-name match starts in a part of the line that holds no `=` |
| ChatFormat.EmptyNameNoDisplayName | src-tauri/src/chat.rs:15 | a line with an empty display-name tag, no other copy of the key in its tags and no `=` in its text has no display-name match anywhere |
| ChatFormat.UsernameAfterTags | src-tauri/src/chat.rs:62-68 | with no display-name match and no colon in the tags, a line whose tags are followed by `:nick!` has username `nick` |
| ChatFormat.EmptyNameUsername | src-tauri/src/chat.rs:62-68 | such a line whose tags hold no `:` falls back to the sender's nick as its username |
| ChatFormat.ParseEmptyNameLine | src-tauri/src/chat.rs:58-81 | round trip: a line with an empty display-name tag gives back the sender's nick and the trimmed text |
| ChatConnect.TrimLeadingHashes | src-tauri/src/chat.rs:31 | `trim_start_matches('#')` removes a prefix made only of `#` and leaves a result that does not start with `#` |
| ChatConnect.PassLineShape | src-tauri/src/chat.rs:26 | the PASS line starts with `PASS ` and ends with CR LF |
| ChatConnect.NickLineShape | src-tauri/src/chat.rs:27-29 | the NICK line starts with `NICK ` and ends with CR LF |
| ChatConnect.JoinLineShape | src-tauri/src/chat.rs:30-32 | the JOIN line starts with `JOIN #` and ends with CR LF |
| ChatConnect.CapLineShape | src-tauri/src/chat.rs:35-37 | the capability request starts with `CAP REQ ` and ends with CR LF |
| ChatConnect.HandshakeOrder | src-tauri/src/chat.rs:26-37 | exactly four lines are written, in the order PASS, NICK, JOIN, CAP REQ, each ended by CR LF |
| ChatConnect.NickChoice | src-tauri/src/chat.rs:27-29 | without a nickname the NICK line names `justinfan12345`; otherwise it names the given nickname verbatim |
| ChatConnect.TrimLeadingHashesIdempotent | src-tauri/src/chat.rs:31 | stripping leading `#` twice is stripping them once |
| ChatConnect.TrimLeadingHashesAbsorbs | src-tauri/src/chat.rs:31 | dropping any prefix made only of `#` first changes nothing |
| ChatConnect.LeadingHashesIgnored | src-tauri/src/chat.rs:30-32 | any number of leading `#` on the channel gives the same handshake, so `foo`, `#foo` and `##foo` join `#foo` |
| ChatConnect.JoinNamesChannel | src-tauri/src/chat.rs:30-32 | the channel is some `#` followed by the name JOIN uses; a channel without a leading `#` is joined as `#` plus the name unchanged |
| ChatReader.Steps | src-tauri/src/chat.rs:139-143 | every turn past the end of the input stops the loop, since the stream is closed there |
| ChatReader.RunFromFollowsSteps | src-tauri/src/chat.rs:133-177 | a run is the sequence of turns that go on, followed by the first turn that stops, with that turn's reason |
| ChatReader.RunFollowsSteps | src-tauri/src/chat.rs:133-177 | the loop handles a prefix of the input, each line by its own turn, and stops at the next read for the recorded reason |
| ChatReader.StepAction | src-tauri/src/chat.rs:144-170 | a turn that goes on answers with a PONG exactly for a PING line, and forwards exactly the rendering of a non-PING line that parses |
| ChatReader.ActionsMatchLines | src-tauri/src/chat.rs:133-177 | over handled lines, the forwarded texts and PONG writes are those of the reference definitions `Accepted` and `PongsFor` |
| ChatReader.DeliveredInInputOrder | src-tauri/src/chat.rs:158-169 | the loop forwards `user <name> said <content>` for every handled line that parses and is not a PING, in input order, and skips the rest silently; its writes are one PONG per handled PING |
| ChatReader.PingAnswered | src-tauri/src/chat.rs:146-150 | a handled line got a PONG if and only if it is a PING; a PING that was read but not handled stopped the loop through the kill flag or a failed write |
| ChatReader.KillHonoured | src-tauri/src/chat.rs:134-156 | once the kill flag is seen set for line `i`, before its read or after the PING test, neither that line nor any later one is handled |
| ChatReader.StopReason | src-tauri/src/chat.rs:133-179 | the loop stops for exactly one reason, each stated as an if-and-only-if on the first unhandled read: kill flag, 0 bytes, read error, failed send, failed PONG write |
| ChatReader.EchoStopsOnlyAtSocket | src-tauri/src/chat.rs:90-117 | `test_function` stops only because the stream closed, a read failed or a PONG write failed |
| ChatReader.ReadChat | src-tauri/src/chat.rs:122-180 | the loop of `start_twitch_chat_reader` writes the handshake and then exactly the PONGs of `Run`, sends exactly its deliveries, and stops for its reason |
| ChatReader.EchoChat | src-tauri/src/chat.rs:83-120 | the loop of `test_function` writes the handshake and then exactly the `PONG :tmi.twitch.tv` replies of `Run`, prints exactly its deliveries as `<name>: <content>`, and stops for its reason |
| ChatExamples.TaggedScenario | src-tauri/src/chat.rs:58-81 | `@color=;display-name=Foo;user-type= :bar!bar@bar.tmi.twitch.tv PRIVMSG #c :hello` gives `Foo` and `hello` |
| ChatExamples.EmptyNameScenario | src-tauri/src/chat.rs:58-81 | the same line with an empty display name gives the nick `bar` |
| ChatExamples.TrimPlainText | src-tauri/src/chat.rs:74 | `hello` is its own trim |
| ChatExamples.TrimSpacedText | src-tauri/src/chat.rs:74 | the trim of `  hi ` is `hi` |
| ChatExamples.UntaggedScenario | src-tauri/src/chat.rs:58-81 | `:bar!bar@bar.tmi.twitch.tv PRIVMSG #c :  hi ` gives `bar` and `hi` |
| ChatExamples.BlankScenario | src-tauri/src/chat.rs:70-80 | a text of white space only still gives a message, with empty content |
| ChatExamples.PingNotParsed | src-tauri/src/chat.rs:58-81 | `PING :tmi.twitch.tv` is not a chat message |
| ChatExamples.PingScenario | src-tauri/src/chat.rs:146-150 | the reader answers a PING with one `PONG` CR LF, forwards nothing, and stops when the stream closes |

## Left out

- The TCP connection, and the errors of the handshake writes and flush, are left out
  (`src-tauri/src/chat.rs:22`, `26-40`). The model covers the lines written, not
  the socket. `ReadChat` and `EchoChat` start after a successful connect.
- `SERVER` and `PORT` are used only by the connect call, so they are not modelled.
- All `println!` logging is left out. This includes the connection message and the
  console echo of each relayed message in `start_twitch_chat_reader`.
- `read_line` is given as a sequence of results rather than a stream. A read past the
  end of the sequence is end of stream. A line with no characters stands for the 0-byte
  read.
- An invalid UTF-8 read is one of the read errors; its cause is not modelled.
- The kill flag, the outcome of each send and the outcome of each PONG write and flush
  are oracles indexed by line. Concurrent writers of the flag and the speech-queue
  receiver are not modelled. The PONG write and its flush are one outcome, since
  either failing ends the function with an error.
- The regex engine itself is not modelled. Each of the three patterns is a search
  written out for that pattern alone.
- `src-tauri/src/tts.rs`, `src-tauri/src/lib.rs` and `src/App.tsx` are not part of
  this model. They are thread, audio and UI plumbing around foreign libraries.
- ChatFormat.ParseUntaggedLine: requires a text without `=`. A `display-name=` in the
  text of an untagged line would be taken as the username, so the round trip does not
  hold for every text.
- ChatFormat.ParseEmptyNameLine: requires a text without `=`, for the same reason.
- ChatFormat.ParseTaggedLine: requires a display name without `;` or space, as IRCv3
  tag escaping guarantees. It also requires tags without spaces, no `display-name=`
  inside the tags before the display name, and a last tag that does not end in
  `PRIVMSG`. Tags are modelled as the strings `pre` and `post` around the display-name
  tag, not as a parsed list.
- ChatFormat.ParseEmptyNameLine: requires tags without `:`. A tag such as
  `emotes=25:0-4` would make the fallback take its username from that colon, so the
  nick is not recovered. It also requires no other `display-name=` in the tags: a tag
  such as `reply-parent-display-name=x` would be taken as the username.
- ChatFormat.ParseTaggedLine, ChatFormat.ParseUntaggedLine and
  ChatFormat.ParseEmptyNameLine: require nicks and channels that are Twitch logins
  (lower-case letters, digits and `_`). Lines with other tag layouts or other sources
  are not covered by these round trips.
