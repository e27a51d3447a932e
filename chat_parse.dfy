/**
 * `parse_message` of src-tauri/src/chat.rs: one raw IRC line (RFC 2812 section 2.3.1,
 * with IRCv3 message tags) to a chat message, or nothing.
 *
 * The source uses three unanchored regular expressions,
 *   `display-name=([^;]+)`, `:([^!]+)!` and `PRIVMSG [^:]+:(.+)`,
 * with leftmost-first matching. Each is modelled by a predicate saying whether the
 * pattern matches at a given start index, a leftmost search over start indices, and
 * a function giving the capture group of the match found.
 */
module ChatParse {
  import opened Wrappers
  import opened Text

  datatype ChatMessage = ChatMessage(username: string, content: string)

  const DisplayNameKey: string := "display-name="
  const PrivmsgKey: string := "PRIVMSG "

  /**
   * The leftmost index in `[from, limit)` where `at` holds, as an unanchored regex
   * search tries its start positions from left to right.
   */
  function Leftmost(at: nat -> bool, from: nat, limit: nat): (r: Option<nat>)
    ensures r.Some? ==> from <= r.value < limit && at(r.value)
    ensures r.Some? ==> forall j: nat :: from <= j < r.value ==> !at(j)
    ensures r.None? ==> forall j: nat :: from <= j < limit ==> !at(j)
    decreases limit - from
  {
    if limit <= from then None
    else if at(from) then Some(from)
    else Leftmost(at, from + 1, limit)
  }

  /** `display-name=([^;]+)` matches at `i`: the key, then at least one character other than `;`. */
  predicate DisplayNameAt(s: string, i: nat) {
    OccursAt(s, DisplayNameKey, i) && i + |DisplayNameKey| < |s| && s[i + |DisplayNameKey|] != ';'
  }

  /**
   * `:([^!]+)!` matches at `i`: a colon, at least one character other than `!`, then a `!`.
   * The greedy run cannot give back a character to find the `!`, so the match exists
   * exactly when the run ends on a `!` rather than at the end of the line.
   */
  predicate SourceAt(s: string, i: nat) {
    i + 1 < |s| && s[i] == ':' && s[i + 1] != '!' && RunEnd(s, i + 1, '!') < |s|
  }

  /**
   * `PRIVMSG [^:]+:(.+)` matches at `i`: the key, at least one character other than `:`,
   * the colon that ends that run, then at least one character other than a newline
   * (`.` does not match `\n`).
   */
  predicate PrivmsgAt(s: string, i: nat) {
    OccursAt(s, PrivmsgKey, i) && i + |PrivmsgKey| < |s| && s[i + |PrivmsgKey|] != ':'
    && RunEnd(s, i + |PrivmsgKey|, ':') + 1 < |s|
    && s[RunEnd(s, i + |PrivmsgKey|, ':') + 1] != '\n'
  }

  /** Capture group 1 of `display-name=([^;]+)` at `i`: the maximal non-empty run of non-`;` characters. */
  function DisplayNameCapture(s: string, i: nat): (name: string)
    requires DisplayNameAt(s, i)
    ensures name != [] && ';' !in name
    ensures var e := i + |DisplayNameKey| + |name|; e <= |s| && name == s[i + |DisplayNameKey|..e]
    ensures var e := i + |DisplayNameKey| + |name|; e == |s| || s[e] == ';'
  {
    var c := i + |DisplayNameKey|;
    s[c..RunEnd(s, c, ';')]
  }

  /** Capture group 1 of `:([^!]+)!` at `i`: the non-empty text between the colon and the next `!`. */
  function SourceCapture(s: string, i: nat): (nick: string)
    requires SourceAt(s, i)
    ensures nick != [] && '!' !in nick
    ensures i + 1 + |nick| < |s| && nick == s[i + 1..i + 1 + |nick|] && s[i + 1 + |nick|] == '!'
  {
    s[i + 1..RunEnd(s, i + 1, '!')]
  }

  /**
   * Capture group 1 of `PRIVMSG [^:]+:(.+)` at `i`: everything after the first colon
   * that follows the key, up to the end of the line or the first newline.
   */
  function PayloadCapture(s: string, i: nat): (payload: string)
    requires PrivmsgAt(s, i)
    ensures payload != [] && '\n' !in payload
    ensures var j := RunEnd(s, i + |PrivmsgKey|, ':') + 1;
      j + |payload| <= |s| && payload == s[j..j + |payload|]
      && (j + |payload| == |s| || s[j + |payload|] == '\n')
  {
    var j := RunEnd(s, i + |PrivmsgKey|, ':') + 1;
    s[j..RunEnd(s, j, '\n')]
  }

  /** Start of the leftmost match of `display-name=([^;]+)` in `s`, or `None` if it matches nowhere. */
  function FirstDisplayName(s: string): (r: Option<nat>)
    ensures r.Some? ==> DisplayNameAt(s, r.value) && forall j: nat :: j < r.value ==> !DisplayNameAt(s, j)
    ensures r.None? ==> forall j: nat :: !DisplayNameAt(s, j)
  {
    var at := (i: nat) => DisplayNameAt(s, i);
    assert forall j: nat :: at(j) == DisplayNameAt(s, j);
    Leftmost(at, 0, |s|)
  }

  /** Start of the leftmost match of `:([^!]+)!` in `s`, or `None` if it matches nowhere. */
  function FirstSource(s: string): (r: Option<nat>)
    ensures r.Some? ==> SourceAt(s, r.value) && forall j: nat :: j < r.value ==> !SourceAt(s, j)
    ensures r.None? ==> forall j: nat :: !SourceAt(s, j)
  {
    var at := (i: nat) => SourceAt(s, i);
    assert forall j: nat :: at(j) == SourceAt(s, j);
    Leftmost(at, 0, |s|)
  }

  /** Start of the leftmost match of `PRIVMSG [^:]+:(.+)` in `s`, or `None` if it matches nowhere. */
  function FirstPrivmsg(s: string): (r: Option<nat>)
    ensures r.Some? ==> PrivmsgAt(s, r.value) && forall j: nat :: j < r.value ==> !PrivmsgAt(s, j)
    ensures r.None? ==> forall j: nat :: !PrivmsgAt(s, j)
  {
    var at := (i: nat) => PrivmsgAt(s, i);
    assert forall j: nat :: at(j) == PrivmsgAt(s, j);
    Leftmost(at, 0, |s|)
  }

  /** The display-name tag if the line has one, else the nick of the message source. */
  function Username(s: string): Option<string> {
    match FirstDisplayName(s)
    case Some(i) => Some(DisplayNameCapture(s, i))
    case None =>
      match FirstSource(s)
      case Some(i) => Some(SourceCapture(s, i))
      case None => None
  }

  /** The trimmed payload of the leftmost PRIVMSG match. */
  function Content(s: string): Option<string> {
    match FirstPrivmsg(s)
    case Some(i) => Some(Trim(PayloadCapture(s, i)))
    case None => None
  }

  /** `parse_message`: a message only when both a name and a content were extracted. */
  function ParseMessage(s: string): Option<ChatMessage> {
    match (Username(s), Content(s))
    case (Some(username), Some(content)) => Some(ChatMessage(username, content))
    case _ => None
  }

  /**
   * A line parses exactly when the PRIVMSG pattern matches somewhere and a name pattern
   * (display-name tag or message source) matches somewhere. In particular a line with no
   * PRIVMSG match yields nothing, whatever names it carries.
   */
  lemma ParseDefinedIff(s: string)
    ensures ParseMessage(s).Some? <==>
      (exists i: nat :: PrivmsgAt(s, i))
      && ((exists i: nat :: DisplayNameAt(s, i)) || (exists i: nat :: SourceAt(s, i)))
  {
  }

  /**
   * When the display-name pattern first matches at `i`, the username is its capture
   * (the maximal non-`;` run after the key), whatever the message source says.
   */
  lemma DisplayNameWins(s: string, i: nat)
    requires DisplayNameAt(s, i)
    requires forall j: nat :: j < i ==> !DisplayNameAt(s, j)
    ensures Username(s) == Some(DisplayNameCapture(s, i))
  {
  }

  /**
   * Without any display-name match, the username is the capture of the leftmost
   * `:nick!` match: non-empty and free of `!`.
   */
  lemma SourceNameFallback(s: string, i: nat)
    requires forall j: nat :: !DisplayNameAt(s, j)
    requires SourceAt(s, i)
    requires forall j: nat :: j < i ==> !SourceAt(s, j)
    ensures Username(s) == Some(SourceCapture(s, i))
  {
  }

  /**
   * A parsed username is never empty; it holds no `;` when it came from the display-name
   * tag and no `!` when it came from the message source.
   */
  lemma UsernameShape(s: string)
    requires ParseMessage(s).Some?
    ensures var u := ParseMessage(s).value.username;
      u != [] && (if exists i: nat :: DisplayNameAt(s, i) then ';' !in u else '!' !in u)
  {
    assert Username(s).Some?;
    var u := Username(s).value;
    assert ParseMessage(s).value.username == u;
    match FirstDisplayName(s)
    case Some(i) =>
      assert u == DisplayNameCapture(s, i);
    case None =>
      assert u == SourceCapture(s, FirstSource(s).value);
  }

  /**
   * The content is its own trim (no white space at either end) and holds no newline.
   * It may be empty, when the payload is only white space.
   */
  lemma ContentTrimmed(s: string)
    requires ParseMessage(s).Some?
    ensures var c := ParseMessage(s).value.content;
      Trim(c) == c && '\n' !in c
      && (c != [] ==> !IsWhiteSpace(c[0]) && !IsWhiteSpace(c[|c| - 1]))
  {
    var p := PayloadCapture(s, FirstPrivmsg(s).value);
    TrimIdempotent(p);
    TrimKeepsOnlyCharsOf(p, '\n');
  }
}
