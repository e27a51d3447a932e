/**
 * Chat lines in the layouts Twitch uses, and what `parse_message` makes of them.
 *
 * A chat message arrives as an IRC PRIVMSG (section 2.3.1 of RFC 2812) from the prefix
 * `nick!nick@nick.tmi.twitch.tv`, optionally preceded by IRCv3 message tags, and ended by
 * CR LF. `PrivmsgLine` builds such a line; the round-trip lemmas say that parsing it gives
 * back the sender (the display-name tag when there is one, the nick otherwise) and the
 * trimmed text. The helper lemmas locate the three matches in a line from a few facts
 * about its characters.
 */
module ChatFormat {
  import opened Wrappers
  import opened Text
  import opened ChatParse

  /** A Twitch login name: non-empty, made of lower-case ASCII letters, digits and `_`. */
  predicate IsLogin(s: string) {
    s != [] && forall i :: 0 <= i < |s| ==> 'a' <= s[i] <= 'z' || '0' <= s[i] <= '9' || s[i] == '_'
  }

  /**
   * A value of a message tag: non-empty, and free of `;` and space, which IRCv3
   * message tags transmit escaped as `\:` and `\s`.
   */
  predicate IsTagValue(s: string) {
    s != [] && ';' !in s && ' ' !in s
  }

  const HostSuffix: string := ".tmi.twitch.tv "

  /**
   * The tags of a chat line: the tags `pre` before the display-name tag, the display
   * name `name`, the tags `post` after it, and the space that ends the tags. Twitch
   * sends its tags in alphabetical order, so `pre` holds tags such as `badge-info`,
   * `badges` and `color`, and `post` tags such as `emotes`, `id` and `user-type`.
   */
  function DisplayNameTags(pre: string, name: string, post: string): string {
    "@" + pre + DisplayNameKey + name + ";" + post + " "
  }

  /** Whether the display-name key occurs in `t`. */
  predicate HasDisplayNameKey(t: string) {
    exists j: nat | j <= |t| :: OccursAt(t, DisplayNameKey, j)
  }

  /** The line that carries chat message `text` from `nick` in `#chan`, after `tags`. */
  function PrivmsgLine(tags: string, nick: string, chan: string, text: string): string {
    tags + PrivmsgBody(nick, chan, text)
  }

  /** A chat line after its tags: the message source, the command and the text. */
  function PrivmsgBody(nick: string, chan: string, text: string): string {
    ":" + nick + "!" + nick + "@" + nick + HostSuffix + PrivmsgKey + "#" + chan + " :" + text + "\r\n"
  }

  lemma LoginChars(s: string)
    requires IsLogin(s)
    ensures '=' !in s && '!' !in s && 'P' !in s && ':' !in s && '\n' !in s && ' ' !in s
  {
    forall c | c in s ensures c != '=' && c != '!' && c != 'P' && c != ':' && c != '\n' && c != ' ' {
      var i :| 0 <= i < |s| && s[i] == c;
    }
  }

  /** No PRIVMSG match can start in `[lo, hi)` when the line has no `P` there. */
  lemma NoPrivmsgBetween(s: string, lo: nat, hi: nat)
    requires lo <= hi <= |s| && 'P' !in s[lo..hi]
    ensures forall j: nat :: lo <= j < hi ==> !PrivmsgAt(s, j)
  {
    forall j: nat | lo <= j < hi
      ensures !PrivmsgAt(s, j)
    {
      assert s[lo..hi][j - lo] == s[j];
      assert j + |PrivmsgKey| <= |s| ==> s[j..j + |PrivmsgKey|][0] == s[j];
    }
  }

  /** A line without `=` has no display-name match. */
  lemma NoDisplayNameWithout(s: string)
    requires '=' !in s
    ensures forall j: nat :: !DisplayNameAt(s, j)
  {
    forall j: nat
      ensures !DisplayNameAt(s, j)
    {
      assert j + |DisplayNameKey| <= |s| ==> s[j..j + |DisplayNameKey|][12] == s[j + 12];
    }
  }

  /** A line without `R` has no PRIVMSG match, so it is not a chat message. */
  lemma NotParsedWithout(s: string)
    requires 'R' !in s
    ensures ParseMessage(s) == None
  {
    forall j: nat
      ensures !PrivmsgAt(s, j)
    {
      assert j + |PrivmsgKey| <= |s| ==> s[j..j + |PrivmsgKey|][1] == s[j + 1];
    }
    assert FirstPrivmsg(s) == None;
    assert Content(s) == None;
  }

  /**
   * The username of a line whose first display-name key is at `i`, with the tag value
   * running to `e`: that value.
   */
  lemma UsernameFromTag(s: string, i: nat, e: nat)
    requires forall j: nat :: j < i ==> !DisplayNameAt(s, j)
    requires OccursAt(s, DisplayNameKey, i)
    requires i + |DisplayNameKey| < e <= |s|
    requires ';' !in s[i + |DisplayNameKey|..e] && (e == |s| || s[e] == ';')
    ensures Username(s) == Some(s[i + |DisplayNameKey|..e])
  {
    var b := i + |DisplayNameKey|;
    forall k | b <= k < e ensures s[k] != ';' {
      assert s[b..e][k - b] == s[k];
    }
    assert DisplayNameAt(s, i);
    DisplayNameWins(s, i);
    assert RunEnd(s, b, ';') == e;
  }

  /**
   * The username of a line without a display-name match whose first colon, at `c`,
   * starts a nick that runs to the first `!` after it, at `e`: that nick.
   */
  lemma UsernameFromSource(s: string, c: nat, e: nat)
    requires forall j: nat :: !DisplayNameAt(s, j)
    requires c + 1 < e < |s| && ':' !in s[..c] && s[c] == ':'
    requires '!' !in s[c + 1..e] && s[e] == '!'
    ensures Username(s) == Some(s[c + 1..e])
  {
    forall j: nat | j < c ensures !SourceAt(s, j) {
      assert s[..c][j] == s[j];
    }
    forall k | c + 1 <= k < e ensures s[k] != '!' {
      assert s[c + 1..e][k - c - 1] == s[k];
    }
    assert RunEnd(s, c + 1, '!') == e;
    assert SourceAt(s, c);
    SourceNameFallback(s, c);
  }

  /**
   * The PRIVMSG pattern matches at `i` when the key is there, the first colon after it
   * is at `c`, and the payload runs to the end of the line or the first newline, at `e`;
   * the capture is that payload.
   */
  lemma PayloadAt(s: string, i: nat, c: nat, e: nat)
    requires OccursAt(s, PrivmsgKey, i)
    requires i + |PrivmsgKey| < c && c + 1 < e <= |s|
    requires ':' !in s[i + |PrivmsgKey|..c] && s[c] == ':'
    requires '\n' !in s[c + 1..e] && (e == |s| || s[e] == '\n')
    ensures PrivmsgAt(s, i) && PayloadCapture(s, i) == s[c + 1..e]
  {
    var b := i + |PrivmsgKey|;
    forall k | b <= k < c ensures s[k] != ':' {
      assert s[b..c][k - b] == s[k];
    }
    assert RunEnd(s, b, ':') == c;
    forall k | c + 1 <= k < e ensures s[k] != '\n' {
      assert s[c + 1..e][k - c - 1] == s[k];
    }
    assert RunEnd(s, c + 1, '\n') == e;
  }

  /**
   * The content of a line with no PRIVMSG match before `i` and the payload of the match
   * at `i` running from `c + 1` to `e`: that payload, trimmed.
   */
  lemma ContentAt(s: string, i: nat, c: nat, e: nat)
    requires forall j: nat :: j < i ==> !PrivmsgAt(s, j)
    requires OccursAt(s, PrivmsgKey, i)
    requires i + |PrivmsgKey| < c && c + 1 < e <= |s|
    requires ':' !in s[i + |PrivmsgKey|..c] && s[c] == ':'
    requires '\n' !in s[c + 1..e] && (e == |s| || s[e] == '\n')
    ensures Content(s) == Some(Trim(s[c + 1..e]))
  {
    PayloadAt(s, i, c, e);
    assert FirstPrivmsg(s) == Some(i);
  }

  /** Where the parts of a chat line sit. */
  lemma PrivmsgLineLayout(tags: string, nick: string, chan: string, text: string)
    ensures var s := PrivmsgLine(tags, nick, chan, text);
      var mid := ":" + nick + "!" + nick + "@" + nick + HostSuffix;
      var i := |tags| + |mid|; var c := i + |PrivmsgKey| + 1 + |chan| + 1;
      |s| == c + |text| + 3 && s[..|tags|] == tags && s[|tags|..i] == mid
      && s[i..i + |PrivmsgKey|] == PrivmsgKey && s[i + |PrivmsgKey|..c] == "#" + chan + " "
      && s[c] == ':' && s[c + 1..|s| - 1] == text + ['\r'] && s[|s| - 1] == '\n'
  {
    var s := PrivmsgLine(tags, nick, chan, text);
    var mid := ":" + nick + "!" + nick + "@" + nick + HostSuffix;
    var rest := "#" + chan + " :" + text + "\r\n";
    assert s == tags + mid + PrivmsgKey + rest;
  }

  /**
   * The content of a line laid out as a chat line: no PRIVMSG match before `i`, the key
   * at `i`, the first colon after it at `c`, and then the text, a CR and a LF.
   */
  lemma ContentFromLayout(s: string, lo: nat, i: nat, c: nat, text: string)
    requires forall j: nat :: j < lo ==> !PrivmsgAt(s, j)
    requires lo <= i && i + |PrivmsgKey| < c && c + |text| + 3 == |s|
    requires 'P' !in s[lo..i] && s[i..i + |PrivmsgKey|] == PrivmsgKey
    requires ':' !in s[i + |PrivmsgKey|..c] && s[c] == ':'
    requires s[c + 1..|s| - 1] == text + ['\r'] && s[|s| - 1] == '\n' && '\n' !in text
    ensures Content(s) == Some(Trim(text))
  {
    NoPrivmsgBetween(s, lo, i);
    assert '\n' !in text + ['\r'];
    ContentAt(s, i, c, |s| - 1);
    TrimIgnoresTrailingWhiteSpace(text, '\r');
  }

  /**
   * The content of a chat line is its text, trimmed, provided that no PRIVMSG match
   * starts inside the tags: the CR LF is not part of the capture, or is trimmed away.
   */
  lemma PrivmsgLineContent(tags: string, nick: string, chan: string, text: string)
    requires IsLogin(nick) && IsLogin(chan) && '\n' !in text
    requires forall j: nat :: j < |tags| ==> !PrivmsgAt(PrivmsgLine(tags, nick, chan, text), j)
    ensures Content(PrivmsgLine(tags, nick, chan, text)) == Some(Trim(text))
  {
    var s := PrivmsgLine(tags, nick, chan, text);
    var mid := ":" + nick + "!" + nick + "@" + nick + HostSuffix;
    var i := |tags| + |mid|;
    var c := i + |PrivmsgKey| + 1 + |chan| + 1;
    PrivmsgLineLayout(tags, nick, chan, text);
    LoginChars(nick);
    LoginChars(chan);
    assert 'P' !in mid;
    assert ':' !in "#" + chan + " ";
    ContentFromLayout(s, |tags|, i, c, text);
  }

  /** The body of a chat line whose text holds no `=` has no `=`. */
  lemma NoEqualsInBody(nick: string, chan: string, text: string)
    requires IsLogin(nick) && IsLogin(chan) && '=' !in text
    ensures '=' !in PrivmsgBody(nick, chan, text)
  {
    LoginChars(nick);
    LoginChars(chan);
  }

  /** After its tags, a chat line whose text holds no `=` has no `=`. */
  lemma NoEqualsAfterTags(tags: string, nick: string, chan: string, text: string)
    requires IsLogin(nick) && IsLogin(chan) && '=' !in text
    ensures var s := PrivmsgLine(tags, nick, chan, text);
      |tags| <= |s| && '=' !in s[|tags|..]
  {
    NoEqualsInBody(nick, chan, text);
    assert PrivmsgLine(tags, nick, chan, text)[|tags|..] == PrivmsgBody(nick, chan, text);
  }

  /** After its tags, a chat line starts with a colon, the nick and a `!`. */
  lemma SourceAfterTags(tags: string, nick: string, chan: string, text: string)
    ensures var s := PrivmsgLine(tags, nick, chan, text); var k := |tags| + 1 + |nick|;
      k < |s| && s[..|tags|] == tags && s[|tags|] == ':' && s[|tags| + 1..k] == nick && s[k] == '!'
  {
    var s := PrivmsgLine(tags, nick, chan, text);
    var mid := ":" + nick + "!" + nick + "@" + nick + HostSuffix;
    PrivmsgLineLayout(tags, nick, chan, text);
    assert mid[1..1 + |nick|] == nick && mid[1 + |nick|] == '!';
    assert s[|tags|..|tags| + |mid|][1..1 + |nick|] == s[|tags| + 1..|tags| + 1 + |nick|];
  }

  /** An untagged chat line whose text holds no `=` has no display-name match. */
  lemma UntaggedNoDisplayName(nick: string, chan: string, text: string)
    requires IsLogin(nick) && IsLogin(chan) && '=' !in text
    ensures forall j: nat :: !DisplayNameAt(PrivmsgLine("", nick, chan, text), j)
  {
    var s := PrivmsgLine("", nick, chan, text);
    NoEqualsAfterTags("", nick, chan, text);
    assert s[0..] == s;
    NoDisplayNameWithout(s);
  }

  /** A line that starts with a colon, a nick and a `!`, and has no display-name match. */
  lemma UsernameFromPrefix(s: string, nick: string)
    requires forall j: nat :: !DisplayNameAt(s, j)
    requires nick != [] && '!' !in nick && 1 + |nick| < |s|
    requires s[0] == ':' && s[1..1 + |nick|] == nick && s[1 + |nick|] == '!'
    ensures Username(s) == Some(nick)
  {
    UsernameFromSource(s, 0, 1 + |nick|);
  }

  /** The username of an untagged chat line whose text holds no `=`: the sender's nick. */
  lemma UntaggedUsername(nick: string, chan: string, text: string)
    requires IsLogin(nick) && IsLogin(chan) && '=' !in text
    ensures Username(PrivmsgLine("", nick, chan, text)) == Some(nick)
  {
    UntaggedNoDisplayName(nick, chan, text);
    SourceAfterTags("", nick, chan, text);
    LoginChars(nick);
    UsernameFromPrefix(PrivmsgLine("", nick, chan, text), nick);
  }

  /**
   * Round trip of an untagged chat line: the username is the sender's nick and the
   * content the trimmed text, as long as the text holds no `=`, which could start a
   * display-name match.
   */
  lemma ParseUntaggedLine(nick: string, chan: string, text: string)
    requires IsLogin(nick) && IsLogin(chan) && '\n' !in text && '=' !in text
    ensures ParseMessage(PrivmsgLine("", nick, chan, text)) == Some(ChatMessage(nick, Trim(text)))
  {
    UntaggedUsername(nick, chan, text);
    PrivmsgLineContent("", nick, chan, text);
  }

  /** The characters of the two keys that the proofs about tags look at. */
  lemma KeyFacts()
    ensures |DisplayNameKey| == 13 && DisplayNameKey[0] == 'd'
    ensures forall m :: 1 <= m < |DisplayNameKey| ==> DisplayNameKey[m] != 'd'
    ensures ' ' !in DisplayNameKey && ';' !in DisplayNameKey
    ensures |PrivmsgKey| == 8 && PrivmsgKey[7] == ' ' && PrivmsgKey[..7] == "PRIVMSG"
  {
  }

  /** Where the parts of the tags sit. */
  lemma TagsLayout(pre: string, name: string, post: string)
    ensures var t := DisplayNameTags(pre, name, post);
      var i := 1 + |pre|; var e := i + |DisplayNameKey| + |name|;
      |t| == e + |post| + 2 && t[0] == '@' && t[1..i] == pre
      && t[i..i + |DisplayNameKey|] == DisplayNameKey && t[i + |DisplayNameKey|..e] == name
      && t[e] == ';' && t[e + 1..|t| - 1] == post && t[|t| - 1] == ' '
  {
    var t := DisplayNameTags(pre, name, post);
    var i := 1 + |pre|;
    var e := i + |DisplayNameKey| + |name|;
    assert t == "@" + pre + DisplayNameKey + name + ";" + post + " ";
    assert t[..e] == "@" + pre + DisplayNameKey + name;
    assert t[e + 1..|t| - 1] == post;
  }

  /** A chat line starts with its tags, and its body follows them. */
  lemma LineLayout(tags: string, nick: string, chan: string, text: string)
    ensures var s := PrivmsgLine(tags, nick, chan, text);
      |tags| <= |s| && s[..|tags|] == tags && s[|tags|..] == PrivmsgBody(nick, chan, text)
  {
  }

  /**
   * Tags whose parts hold no space end at their only space, and they do not end in
   * `PRIVMSG` before it unless `post` does.
   */
  lemma TagsEnd(pre: string, name: string, post: string)
    requires ' ' !in pre && ' ' !in name && ' ' !in post && !EndsWith(post, "PRIVMSG")
    ensures var t := DisplayNameTags(pre, name, post);
      8 <= |t| && ' ' !in t[..|t| - 1] && t[|t| - 1] == ' ' && t[|t| - 8..|t| - 1] != "PRIVMSG"
  {
    var t := DisplayNameTags(pre, name, post);
    var e := 1 + |pre| + |DisplayNameKey| + |name|;
    TagsLayout(pre, name, post);
    KeyFacts();
    assert t[..|t| - 1] == "@" + pre + DisplayNameKey + name + ";" + post;
    if |post| >= 7 {
      assert t[|t| - 8..|t| - 1] == post[|post| - 7..];
    } else {
      assert t[|t| - 8..|t| - 1][6 - |post|] == t[e] == ';';
    }
  }

  /** A chat line's body has no space among its first seven characters. */
  lemma BodyStart(nick: string, chan: string, text: string)
    requires IsLogin(nick)
    ensures 7 <= |PrivmsgBody(nick, chan, text)| && ' ' !in PrivmsgBody(nick, chan, text)[..7]
  {
    var b := PrivmsgBody(nick, chan, text);
    var head := ":" + nick + "!" + nick + "@" + nick + ".tmi.twitch.tv";
    LoginChars(nick);
    assert b[..|head|] == head;
    assert b[..7] == head[..7];
  }

  /**
   * No PRIVMSG match starts before `T` when the only space before `T + 7` is at `T - 1`
   * and `PRIVMSG` does not stand right before it: the key needs a space seven
   * characters after its start.
   */
  lemma NoPrivmsgBeforeSpace(s: string, T: nat)
    requires 8 <= T && T + 7 <= |s|
    requires ' ' !in s[..T - 1] && s[T - 1] == ' ' && ' ' !in s[T..T + 7]
    requires s[T - 8..T - 1] != "PRIVMSG"
    ensures forall j: nat :: j < T ==> !PrivmsgAt(s, j)
  {
    KeyFacts();
    forall j: nat | j < T
      ensures !OccursAt(s, PrivmsgKey, j)
    {
      assert s[j..j + 8][7] == s[j + 7];
      if j + 7 < T - 1 {
        assert s[..T - 1][j + 7] == s[j + 7];
      } else if j + 7 == T - 1 {
        assert s[j..j + 8][..7] == s[T - 8..T - 1];
      } else {
        assert s[T..T + 7][j + 7 - T] == s[j + 7];
      }
    }
  }

  /** No PRIVMSG match starts inside the tags of a chat line. */
  lemma NoPrivmsgInTags(pre: string, name: string, post: string, nick: string, chan: string, text: string)
    requires ' ' !in pre && ' ' !in name && ' ' !in post && !EndsWith(post, "PRIVMSG")
    requires IsLogin(nick)
    ensures var t := DisplayNameTags(pre, name, post);
      forall j: nat :: j < |t| ==> !PrivmsgAt(PrivmsgLine(t, nick, chan, text), j)
  {
    var t := DisplayNameTags(pre, name, post);
    var s := PrivmsgLine(t, nick, chan, text);
    var T := |t|;
    TagsEnd(pre, name, post);
    BodyStart(nick, chan, text);
    LineLayout(t, nick, chan, text);
    assert s[..T - 1] == t[..T - 1] && s[T - 1] == t[T - 1];
    assert s[T - 8..T - 1] == t[T - 8..T - 1];
    assert s[T..T + 7] == s[T..][..7];
    NoPrivmsgBeforeSpace(s, T);
  }

  /**
   * No display-name match starts before `i` when `s` opens with `@`, the text up to
   * `i` holds no display-name key, and the key stands at `i`: a match that runs into
   * the key at `i` would need a second `d` in the key.
   */
  lemma NoDisplayNameBefore(s: string, i: nat)
    requires 1 <= i && i + |DisplayNameKey| <= |s| && s[0] == '@'
    requires !HasDisplayNameKey(s[1..i]) && s[i..i + |DisplayNameKey|] == DisplayNameKey
    ensures forall j: nat :: j < i ==> !DisplayNameAt(s, j)
  {
    KeyFacts();
    forall j: nat | j < i
      ensures !OccursAt(s, DisplayNameKey, j)
    {
      if j == 0 {
        assert s[j..j + 13][0] == s[0];
      } else if j + 13 <= i {
        KeyOutsidePart(s, 1, i, j);
      } else {
        assert s[j..j + 13][i - j] == s[i] == s[i..i + 13][0];
      }
    }
  }

  /** A slice of a prefix is the same slice of the whole line. */
  lemma SliceOfPrefix(s: string, t: string, a: nat, b: nat)
    requires |t| <= |s| && s[..|t|] == t && a <= b <= |t|
    ensures s[a..b] == t[a..b]
  {
    forall k | a <= k < b ensures s[k] == t[k] {
      assert s[..|t|][k] == s[k];
    }
  }

  /** The display-name key does not occur at `j` when it does not occur there in a part of the line holding `j`. */
  lemma KeyOutsidePart(s: string, lo: nat, hi: nat, j: nat)
    requires lo <= j && j + |DisplayNameKey| <= hi <= |s|
    requires !HasDisplayNameKey(s[lo..hi])
    ensures !OccursAt(s, DisplayNameKey, j)
  {
    assert !OccursAt(s[lo..hi], DisplayNameKey, j - lo);
    var u := s[lo..hi][j - lo..j - lo + |DisplayNameKey|];
    forall k | 0 <= k < |DisplayNameKey| ensures u[k] == s[j + k] {
      assert s[lo..hi][j - lo + k] == s[j + k];
    }
    assert u == s[j..j + |DisplayNameKey|];
  }

  /** The username of a line that starts with display-name tags: the display name. */
  lemma TaggedUsername(pre: string, name: string, post: string, s: string)
    requires !HasDisplayNameKey(pre) && IsTagValue(name)
    requires |DisplayNameTags(pre, name, post)| <= |s|
    requires s[..|DisplayNameTags(pre, name, post)|] == DisplayNameTags(pre, name, post)
    ensures Username(s) == Some(name)
  {
    var t := DisplayNameTags(pre, name, post);
    var i := 1 + |pre|;
    var e := i + |DisplayNameKey| + |name|;
    TagsLayout(pre, name, post);
    assert s[0] == t[0] && s[e] == t[e];
    SliceOfPrefix(s, t, 1, i);
    SliceOfPrefix(s, t, i, i + |DisplayNameKey|);
    SliceOfPrefix(s, t, i + |DisplayNameKey|, e);
    NoDisplayNameBefore(s, i);
    UsernameFromTag(s, i, e);
  }

  /**
   * Round trip of a tagged chat line: the username is the display name from the tags,
   * whatever the nick, and the content the trimmed text. The tags before the display
   * name must not hold the display-name key, which would be matched first; no tag
   * holds a space, and the last one does not end in `PRIVMSG`.
   */
  lemma ParseTaggedLine(pre: string, name: string, post: string, nick: string, chan: string, text: string)
    requires ' ' !in pre && !HasDisplayNameKey(pre) && IsTagValue(name)
    requires ' ' !in post && !EndsWith(post, "PRIVMSG")
    requires IsLogin(nick) && IsLogin(chan) && '\n' !in text
    ensures ParseMessage(PrivmsgLine(DisplayNameTags(pre, name, post), nick, chan, text))
      == Some(ChatMessage(name, Trim(text)))
  {
    var t := DisplayNameTags(pre, name, post);
    var s := PrivmsgLine(t, nick, chan, text);
    LineLayout(t, nick, chan, text);
    TaggedUsername(pre, name, post, s);
    NoPrivmsgInTags(pre, name, post, nick, chan, text);
    PrivmsgLineContent(t, nick, chan, text);
  }

  /**
   * With an empty display name, no display-name match starts inside the tags: the key
   * is followed by `;`, and the tags after it hold no key and end with a space.
   */
  lemma NoDisplayNameInEmptyTags(s: string, i: nat, T: nat)
    requires i + |DisplayNameKey| + 2 <= T <= |s|
    requires s[i..i + |DisplayNameKey|] == DisplayNameKey && s[i + |DisplayNameKey|] == ';'
    requires !HasDisplayNameKey(s[i + |DisplayNameKey| + 1..T - 1]) && s[T - 1] == ' '
    ensures forall j: nat :: i <= j < T ==> !DisplayNameAt(s, j)
  {
    KeyFacts();
    var b := i + |DisplayNameKey| + 1;
    forall j: nat | i <= j < T
      ensures !DisplayNameAt(s, j)
    {
      if j + 13 <= |s| {
        if i < j < b - 1 {
          assert s[j..j + 13][0] == s[j] == s[i..i + 13][j - i];
        } else if j == b - 1 {
          assert s[j..j + 13][0] == s[j];
        } else if b <= j && j + 13 <= T - 1 {
          KeyOutsidePart(s, b, T - 1, j);
        } else if b <= j {
          assert s[j..j + 13][T - 1 - j] == s[T - 1];
        }
      }
    }
  }

  /** A line with no `=` after index `T` has no display-name match starting there. */
  lemma NoDisplayNameFrom(s: string, T: nat)
    requires T <= |s| && '=' !in s[T..]
    ensures forall j: nat :: T <= j ==> !DisplayNameAt(s, j)
  {
    forall j: nat | T <= j
      ensures !DisplayNameAt(s, j)
    {
      if j + |DisplayNameKey| <= |s| {
        assert s[j..j + |DisplayNameKey|][12] == s[j + 12] == s[T..][j + 12 - T];
      }
    }
  }

  /**
   * A chat line whose display-name tag is empty, with no display-name key in its other
   * tags and no `=` in its text, has no display-name match at all.
   */
  lemma EmptyNameNoDisplayName(pre: string, post: string, nick: string, chan: string, text: string)
    requires !HasDisplayNameKey(pre) && !HasDisplayNameKey(post)
    requires IsLogin(nick) && IsLogin(chan) && '=' !in text
    ensures forall j: nat :: !DisplayNameAt(PrivmsgLine(DisplayNameTags(pre, "", post), nick, chan, text), j)
  {
    var t := DisplayNameTags(pre, "", post);
    var s := PrivmsgLine(t, nick, chan, text);
    var i := 1 + |pre|;
    var T := |t|;
    TagsLayout(pre, "", post);
    LineLayout(t, nick, chan, text);
    assert s[0] == t[0] && s[1..i] == t[1..i];
    assert s[i..i + |DisplayNameKey|] == t[i..i + |DisplayNameKey|];
    assert s[i + |DisplayNameKey|] == t[i + |DisplayNameKey|];
    assert s[i + |DisplayNameKey| + 1..T - 1] == t[i + |DisplayNameKey| + 1..T - 1];
    assert s[T - 1] == t[T - 1];
    NoDisplayNameBefore(s, i);
    NoDisplayNameInEmptyTags(s, i, T);
    NoEqualsAfterTags(t, nick, chan, text);
    NoDisplayNameFrom(s, T);
  }

  /** Tags whose parts hold no colon hold no colon. */
  lemma TagsWithoutColon(pre: string, post: string)
    requires ':' !in pre && ':' !in post
    ensures ':' !in DisplayNameTags(pre, "", post)
  {
    KeyFacts();
  }

  /**
   * A line without a display-name match whose first `T` characters hold no colon and
   * are followed by `:nick!`: the username is `nick`.
   */
  lemma UsernameAfterTags(s: string, T: nat, nick: string)
    requires forall j: nat :: !DisplayNameAt(s, j)
    requires nick != [] && '!' !in nick && T + 1 + |nick| < |s| && ':' !in s[..T]
    requires s[T] == ':' && s[T + 1..T + 1 + |nick|] == nick && s[T + 1 + |nick|] == '!'
    ensures Username(s) == Some(nick)
  {
    UsernameFromSource(s, T, T + 1 + |nick|);
  }

  /** The username of a chat line with an empty display-name tag: the sender's nick. */
  lemma EmptyNameUsername(pre: string, post: string, nick: string, chan: string, text: string)
    requires ':' !in pre && !HasDisplayNameKey(pre)
    requires ':' !in post && !HasDisplayNameKey(post)
    requires IsLogin(nick) && IsLogin(chan) && '=' !in text
    ensures Username(PrivmsgLine(DisplayNameTags(pre, "", post), nick, chan, text)) == Some(nick)
  {
    var t := DisplayNameTags(pre, "", post);
    EmptyNameNoDisplayName(pre, post, nick, chan, text);
    SourceAfterTags(t, nick, chan, text);
    LoginChars(nick);
    TagsWithoutColon(pre, post);
    UsernameAfterTags(PrivmsgLine(t, nick, chan, text), |t|, nick);
  }

  /**
   * An empty display-name tag is skipped: the username of a line carrying one is the
   * nick from the message source. This needs the tags to hold no colon, which the
   * fallback `:([^!]+)!` would take first, and no other display-name key, and the text
   * to hold no `=`.
   */
  lemma ParseEmptyNameLine(pre: string, post: string, nick: string, chan: string, text: string)
    requires ' ' !in pre && ':' !in pre && !HasDisplayNameKey(pre)
    requires ' ' !in post && ':' !in post && !HasDisplayNameKey(post) && !EndsWith(post, "PRIVMSG")
    requires IsLogin(nick) && IsLogin(chan) && '\n' !in text && '=' !in text
    ensures ParseMessage(PrivmsgLine(DisplayNameTags(pre, "", post), nick, chan, text))
      == Some(ChatMessage(nick, Trim(text)))
  {
    EmptyNameUsername(pre, post, nick, chan, text);
    NoPrivmsgInTags(pre, "", post, nick, chan, text);
    PrivmsgLineContent(DisplayNameTags(pre, "", post), nick, chan, text);
  }
}
