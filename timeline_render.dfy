/** `display_toots`: a timeline as the sequence of strings handed to `print`,
    one entry per call (each is printed followed by a newline). */
module TimelineRender {
  import opened Wrappers
  import opened Decimal
  import opened HtmlText
  import opened DateFormat
  import opened Records
  import opened Strings

  const NoTootsNotice: string := "表示するトゥートがありません"
  const BoostedSuffix: string := "さんがブースト:"
  const ContentWarningTag: string := "\n[CW] "
  const MediaHeading: string := "\n添付メディア:"
  const UnknownMediaType: string := "不明"
  const NoDescription: string := "説明なし"
  const EmojiHeading: string := "\n絵文字:"
  const ReplyIcon: string := "💬"
  const BoostIcon: string := "🔁"
  const FavouriteIcon: string := "⭐"
  const DefaultVisibility: string := "public"
  const UnknownVisibilityIcon: string := "?"

  /** The date-time parser and the current local time, which the source
      obtains from a library and the system clock. */
  datatype Clock = Clock(parse: string -> Option<DateTime>, now: DateTime)

  function Rule(width: nat): (r: string)
    ensures |r| == width
    ensures forall i :: 0 <= i < width ==> r[i] == '-'
  {
    seq(width, _ => '-')
  }

  /** The name shown for an account: its display name, or its user name when
      the display name is empty. */
  function DisplayName(a: Account): (name: string)
    ensures name == a.displayName || name == a.username
    ensures name == "" <==> a.displayName == "" && a.username == ""
    ensures a.displayName != "" ==> name == a.displayName
  {
    if a.displayName != "" then a.displayName else a.username
  }

  /** The post whose author, body and time are shown: the boosted post for a
      boost, the post itself otherwise. */
  function Shown(toot: Toot): (post: Toot)
    ensures toot.reblog.Some? ==> post == toot.reblog.value && post != toot
    ensures toot.reblog.None? ==> post == toot
  {
    if toot.reblog.Some? then toot.reblog.value else toot
  }

  function NumberTag(num: nat): string {
    "\n[" + NatToString(num) + "] "
  }

  /** The line crediting the booster; it carries the block's number. */
  function BoostCredit(num: nat, booster: Account): (line: string)
    ensures ReadNumber(line) == Some(num)
    ensures EndsWith(line, DisplayName(booster) + BoostedSuffix)
  {
    NumberTagReadBack(num, DisplayName(booster) + BoostedSuffix);
    NumberTag(num) + (DisplayName(booster) + BoostedSuffix)
  }

  /** Author, handle and formatted time of the shown post. */
  function Byline(post: Toot, clock: Clock): (line: string)
    ensures StartsWith(line, DisplayName(post.account))
    ensures EndsWith(line, FormatDateTime(post.createdAt, clock.parse(post.createdAt), clock.now))
  {
    DisplayName(post.account) + " (@" + post.account.acct + ") - "
    + FormatDateTime(post.createdAt, clock.parse(post.createdAt), clock.now)
  }

  /** The header of a block: its number, then the byline of the shown post. */
  function Header(num: nat, post: Toot, clock: Clock): (line: string)
    ensures ReadNumber(line) == Some(num)
    ensures EndsWith(line, Byline(post, clock))
  {
    NumberTagReadBack(num, Byline(post, clock));
    NumberTag(num) + Byline(post, clock)
  }

  function ContentWarning(toot: Toot): seq<string> {
    if toot.spoilerText != "" then [ContentWarningTag + toot.spoilerText] else []
  }

  /** The content warning line is printed only for a non-empty spoiler text,
      and then once, ending with that text. */
  lemma ContentWarningShown(toot: Toot)
    ensures var lines := ContentWarning(toot);
            && (lines != [] <==> toot.spoilerText != "")
            && |lines| <= 1
            && (lines != [] ==> StartsWith(lines[0], ContentWarningTag) && EndsWith(lines[0], toot.spoilerText))
  {
  }

  function MediaLine(m: Media): string {
    "- [" + m.kind.GetOr(UnknownMediaType) + "] "
    + (if m.description != "" then m.description else NoDescription)
    + " (" + m.url.GetOr("None") + ")"
  }

  function MediaLines(ms: seq<Media>): (lines: seq<string>)
    ensures |lines| == |ms|
    ensures forall i :: 0 <= i < |ms| ==> lines[i] == MediaLine(ms[i])
  {
    seq(|ms|, i requires 0 <= i < |ms| => MediaLine(ms[i]))
  }

  function MediaSection(ms: seq<Media>): seq<string> {
    if ms == [] then [] else [MediaHeading] + MediaLines(ms)
  }

  function EmojiLine(e: Emoji): string {
    ":" + e.shortcode + ": - " + e.url
  }

  /** An emoji line gives the shortcode between colons first and the image
      URL last. */
  lemma EmojiLineLayout(e: Emoji)
    ensures StartsWith(EmojiLine(e), ":" + e.shortcode + ":")
    ensures EndsWith(EmojiLine(e), " - " + e.url)
  {
    StartsWithConcat(":" + e.shortcode + ":", " - " + e.url);
    assert EmojiLine(e) == (":" + e.shortcode + ":") + (" - " + e.url);
  }

  function EmojiLines(es: seq<Emoji>): (lines: seq<string>)
    ensures |lines| == |es|
    ensures forall i :: 0 <= i < |es| ==> lines[i] == EmojiLine(es[i])
  {
    seq(|es|, i requires 0 <= i < |es| => EmojiLine(es[i]))
  }

  function EmojiSection(es: seq<Emoji>): seq<string> {
    if es == [] then [] else [EmojiHeading] + EmojiLines(es)
  }

  /** Replies, boosts and favourites, each 0 when the key is missing. */
  function CountersLine(toot: Toot): string {
    "\n" + ReplyIcon + " " + NatToString(toot.repliesCount.GetOr(0))
    + " " + BoostIcon + " " + NatToString(toot.reblogsCount.GetOr(0))
    + " " + FavouriteIcon + " " + NatToString(toot.favouritesCount.GetOr(0))
  }

  predicate KnownVisibility(v: string) {
    v == "public" || v == "unlisted" || v == "private" || v == "direct"
  }

  /** The icon of a visibility: one fixed glyph for each of the four known
      values, "?" for anything else. */
  function VisibilityIcon(v: string): (icon: string)
    ensures KnownVisibility(v) <==> icon != UnknownVisibilityIcon
  {
    if v == "public" then "🌐"
    else if v == "unlisted" then "🔓"
    else if v == "private" then "🔒"
    else if v == "direct" then "✉️"
    else UnknownVisibilityIcon
  }

  function VisibilityLine(toot: Toot): string {
    var v := toot.visibility.GetOr(DefaultVisibility);
    VisibilityIcon(v) + " " + v
  }

  /** The credit line of a boost, then the header, the rule and the body. */
  function Opening(num: nat, toot: Toot, clock: Clock): (lines: seq<string>)
    ensures |lines| == if toot.reblog.Some? then 4 else 3
  {
    var post := Shown(toot);
    (if toot.reblog.Some? then [BoostCredit(num, toot.account)] else [])
    + [Header(num, post, clock), Rule(40), CleanHtml(post.content)]
  }

  /** The optional sections, all read from the outer post. */
  function Middle(toot: Toot): seq<string> {
    ContentWarning(toot) + MediaSection(toot.media) + EmojiSection(toot.emojis)
  }

  function Closing(toot: Toot): (lines: seq<string>)
    ensures |lines| == 3
  {
    [CountersLine(toot), VisibilityLine(toot), Rule(60)]
  }

  /** The strings printed for one post carrying display number `num`. */
  function TootLines(num: nat, toot: Toot, clock: Clock): (lines: seq<string>)
    ensures |lines| >= 6
  {
    Opening(num, toot, clock) + Middle(toot) + Closing(toot)
  }

  // ---------------------------------------------------------------------
  // Reading a display number back from a printed line

  /** The number in a line that starts with a newline and "[digits]". */
  function ReadNumber(line: string): Option<nat> {
    if |line| < 2 || line[..2] != "\n[" then None
    else
      var d := DigitPrefix(line[2..]);
      if d != [] && 2 + |d| < |line| && line[2 + |d|] == ']' then Some(DigitsValue(d)) else None
  }

  /** A line that begins with the number tag of `num` reads back as `num`. */
  lemma NumberTagReadBack(num: nat, rest: string)
    ensures ReadNumber(NumberTag(num) + rest) == Some(num)
  {
    var digits := NatToString(num);
    var line := NumberTag(num) + rest;
    assert line == "\n[" + (digits + "] " + rest);
    assert line[2..] == digits + ("] " + rest);
    DigitPrefixOf(digits, "] " + rest);
    assert line[2 + |digits|] == ']';
    NatToStringRoundTrip(num);
  }

  // ---------------------------------------------------------------------
  // One post's block

  /** The opening of a block: for a boost, a credit line naming the booster
      and carrying the same number comes first; the header, body and time are
      those of the shown post (the boosted one for a boost). */
  lemma OpeningLayout(num: nat, toot: Toot, clock: Clock)
    ensures var lines := Opening(num, toot, clock);
            var k := if toot.reblog.Some? then 1 else 0;
            && ReadNumber(lines[0]) == Some(num)
            && ReadNumber(lines[k]) == Some(num)
            && (toot.reblog.Some? ==> lines[0] == BoostCredit(num, toot.account))
            && lines[k] == Header(num, Shown(toot), clock)
            && lines[k + 1] == Rule(40)
            && lines[k + 2] == CleanHtml(Shown(toot).content)
  {
  }

  /** The layout of one post's block: the opening, then the content warning,
      media and emoji sections of the outer post, then its counters,
      visibility and the closing rule. */
  lemma TootBlockLayout(num: nat, toot: Toot, clock: Clock)
    ensures var lines := TootLines(num, toot, clock);
            var k := if toot.reblog.Some? then 1 else 0;
            && |lines| == k + 6 + |Middle(toot)|
            && ReadNumber(lines[0]) == Some(num)
            && lines[k] == Header(num, Shown(toot), clock)
            && lines[k + 2] == CleanHtml(Shown(toot).content)
            && lines[k + 3..k + 3 + |Middle(toot)|] == Middle(toot)
            && lines[|lines| - 3..] == Closing(toot)
  {
    OpeningLayout(num, toot, clock);
    ConcatLayout(Opening(num, toot, clock), Middle(toot), Closing(toot), if toot.reblog.Some? then 1 else 0);
  }

  /** Where the parts of a three-part concatenation sit. */
  lemma ConcatLayout<T>(o: seq<T>, m: seq<T>, c: seq<T>, k: nat)
    requires k + 3 == |o|
    ensures var s := o + m + c;
            && |s| == |o| + |m| + |c|
            && s[0] == o[0] && s[k] == o[k] && s[k + 2] == o[k + 2]
            && s[k + 3..k + 3 + |m|] == m
            && s[|s| - |c|..] == c
  {
    ThreeParts(o, m, c);
  }

  /** Each missing counter prints as if the post carried 0 for it, whatever
      the other two counters are. */
  lemma CountersDefaults(toot: Toot)
    ensures toot.repliesCount.None? ==>
              CountersLine(toot) == CountersLine(toot.(repliesCount := Some(0)))
    ensures toot.reblogsCount.None? ==>
              CountersLine(toot) == CountersLine(toot.(reblogsCount := Some(0)))
    ensures toot.favouritesCount.None? ==>
              CountersLine(toot) == CountersLine(toot.(favouritesCount := Some(0)))
    ensures toot.repliesCount.None? && toot.reblogsCount.None? && toot.favouritesCount.None? ==>
              CountersLine(toot) == "\n💬 0 🔁 0 ⭐ 0"
  {
    assert NatToString(0) == "0";
  }

  /** A missing visibility prints as public. */
  lemma VisibilityDefault(toot: Toot)
    ensures toot.visibility.None? ==>
              VisibilityLine(toot) == VisibilityLine(toot.(visibility := Some(DefaultVisibility)))
    ensures toot.visibility.None? ==> VisibilityLine(toot) == "🌐 public"
  {
  }

  /** Each missing or empty field of an attachment prints as its placeholder,
      whatever the other two fields are. */
  lemma MediaLineDefaults(m: Media)
    ensures m.kind.None? ==> MediaLine(m) == MediaLine(m.(kind := Some(UnknownMediaType)))
    ensures m.description == "" ==> MediaLine(m) == MediaLine(m.(description := NoDescription))
    ensures m.url.None? ==> MediaLine(m) == MediaLine(m.(url := Some("None")))
  {
  }

  /** For a boost, the outer post's own body, time and author are never
      printed in its place: only the booster's name is taken from it. */
  lemma BoostHidesOuterPost(num: nat, toot: Toot, clock: Clock, content: string, createdAt: string, account: Account)
    requires toot.reblog.Some?
    requires DisplayName(account) == DisplayName(toot.account)
    ensures TootLines(num, toot.(content := content, createdAt := createdAt, account := account), clock)
            == TootLines(num, toot, clock)
  {
  }

  /** The loop over a post's media attachments. */
  method PrintMedia(ms: seq<Media>) returns (out: seq<string>)
    ensures out == MediaSection(ms)
  {
    out := [];
    if ms != [] {
      ghost var lines := MediaLines(ms);
      out := [MediaHeading];
      for i := 0 to |ms|
        invariant out == [MediaHeading] + lines[..i]
      {
        assert lines[..i + 1] == lines[..i] + [MediaLine(ms[i])];
        out := out + [MediaLine(ms[i])];
      }
      assert lines[..|ms|] == lines;
    }
  }

  /** The loop over a post's custom emojis. */
  method PrintEmojis(es: seq<Emoji>) returns (out: seq<string>)
    ensures out == EmojiSection(es)
  {
    out := [];
    if es != [] {
      ghost var lines := EmojiLines(es);
      out := [EmojiHeading];
      for i := 0 to |es|
        invariant out == [EmojiHeading] + lines[..i]
      {
        assert lines[..i + 1] == lines[..i] + [EmojiLine(es[i])];
        out := out + [EmojiLine(es[i])];
      }
      assert lines[..|es|] == lines;
    }
  }

  /** `display_toots`'s loop body for one post. */
  method RenderToot(num: nat, toot: Toot, clock: Clock) returns (out: seq<string>)
    ensures out == TootLines(num, toot, clock)
  {
    var post := toot;
    out := [];
    if toot.reblog.Some? {
      post := toot.reblog.value;
      out := [BoostCredit(num, toot.account)];
    }
    out := out + [Header(num, post, clock), Rule(40), CleanHtml(post.content)];
    assert out == Opening(num, toot, clock);
    var warning := [];
    if toot.spoilerText != "" {
      warning := [ContentWarningTag + toot.spoilerText];
    }
    assert warning == ContentWarning(toot);
    var media := PrintMedia(toot.media);
    var emojis := PrintEmojis(toot.emojis);
    out := out + (warning + media + emojis);
    out := out + [CountersLine(toot), VisibilityLine(toot), Rule(60)];
  }

  // ---------------------------------------------------------------------
  // The whole timeline

  function Reversed<T>(s: seq<T>): (r: seq<T>)
    ensures |r| == |s|
  {
    if s == [] then [] else Reversed(s[1..]) + [s[0]]
  }

  lemma {:induction false} ReversedAt<T>(s: seq<T>, k: nat)
    requires k < |s|
    ensures Reversed(s)[k] == s[|s| - 1 - k]
  {
    if k < |s| - 1 {
      ReversedAt(s[1..], k);
    }
  }

  /** Python's `enumerate(s, start)`. */
  function Enumerate<T>(s: seq<T>, start: nat): (r: seq<(nat, T)>)
    ensures |r| == |s|
    ensures forall k :: 0 <= k < |s| ==> r[k] == (start + k, s[k])
    decreases |s|
  {
    if s == [] then [] else [(start, s[0])] + Enumerate(s[1..], start + 1)
  }

  /** The posts in the order they are shown, each paired with its display
      number: `display_num = total - i + 1` for the i-th post of
      `enumerate(reversed(toots), 1)`. The last post comes first; every post
      carries its own 1-based position in `toots`. */
  function DisplayOrder(toots: seq<Toot>): (order: seq<(nat, Toot)>)
    ensures |order| == |toots|
    ensures forall k :: 0 <= k < |toots| ==> order[k] == (|toots| - k, toots[|toots| - 1 - k])
  {
    var numbered := Enumerate(Reversed(toots), 1);
    var order := seq(|numbered|, k requires 0 <= k < |numbered| =>
      (|toots| - numbered[k].0 + 1, numbered[k].1));
    assert forall k :: 0 <= k < |toots| ==> order[k] == (|toots| - k, toots[|toots| - 1 - k]) by {
      forall k | 0 <= k < |toots| ensures order[k] == (|toots| - k, toots[|toots| - 1 - k]) {
        ReversedAt(toots, k);
      }
    }
    order
  }

  /** N, N-1, ..., 1. */
  function CountDown(n: nat): (r: seq<nat>)
    ensures |r| == n
  {
    if n == 0 then [] else [n] + CountDown(n - 1)
  }

  lemma {:induction false} CountDownAt(n: nat, k: nat)
    requires k < n
    ensures CountDown(n)[k] == n - k
  {
    if k > 0 {
      CountDownAt(n - 1, k - 1);
    }
  }

  /** CountDown(n) holds each of 1..n and nothing else. */
  lemma {:induction false} CountDownMembers(n: nat)
    ensures forall m :: m in CountDown(n) <==> 1 <= m <= n
  {
    if n > 0 {
      CountDownMembers(n - 1);
    }
  }

  function Numbers(order: seq<(nat, Toot)>): (ns: seq<nat>)
    ensures |ns| == |order|
    ensures forall k :: 0 <= k < |order| ==> ns[k] == order[k].0
  {
    seq(|order|, k requires 0 <= k < |order| => order[k].0)
  }

  /** Display numbers run from N down to 1, so each of 1..N is used exactly
      once, and number n labels the post at position n of the input. */
  lemma DisplayNumbering(toots: seq<Toot>)
    ensures var order := DisplayOrder(toots);
            && Numbers(order) == CountDown(|toots|)
            && (forall n :: n in Numbers(order) <==> 1 <= n <= |toots|)
            && (forall k :: 0 <= k < |order| ==> order[k].1 == toots[order[k].0 - 1])
  {
    var order := DisplayOrder(toots);
    forall k | 0 <= k < |toots| ensures Numbers(order)[k] == CountDown(|toots|)[k] {
      CountDownAt(|toots|, k);
    }
    CountDownMembers(|toots|);
  }

  function Blocks(toots: seq<Toot>, clock: Clock): (blocks: seq<seq<string>>)
    ensures |blocks| == |toots|
  {
    var order := DisplayOrder(toots);
    seq(|order|, k requires 0 <= k < |order| => TootLines(order[k].0, order[k].1, clock))
  }

  function Concat(blocks: seq<seq<string>>): seq<string> {
    if blocks == [] then [] else Concat(blocks[..|blocks| - 1]) + blocks[|blocks| - 1]
  }

  lemma ConcatSnoc(blocks: seq<seq<string>>, n: nat)
    requires n < |blocks|
    ensures Concat(blocks[..n + 1]) == Concat(blocks[..n]) + blocks[n]
  {
    assert blocks[..n + 1][..n] == blocks[..n];
  }

  /** Everything `display_toots` prints: the notice alone for an empty
      timeline, otherwise the blocks in display order. */
  function TimelineLines(toots: seq<Toot>, clock: Clock): (lines: seq<string>)
    ensures toots == [] <==> lines == [NoTootsNotice]
  {
    if toots == [] then [NoTootsNotice] else Concat(Blocks(toots, clock))
  }

  /** The k-th block shown is the one for the post at position N-k of the
      input, and its first line reads back as display number N-k. */
  lemma TimelineBlockNumbers(toots: seq<Toot>, clock: Clock, k: nat)
    requires k < |toots|
    ensures var b := Blocks(toots, clock)[k];
            && b == TootLines(|toots| - k, toots[|toots| - 1 - k], clock)
            && ReadNumber(b[0]) == Some(|toots| - k)
  {
    var num, toot := |toots| - k, toots[|toots| - 1 - k];
    BlockAt(toots, clock, k);
    FirstLineNumber(num, toot, clock);
    var b := Blocks(toots, clock)[k];
    assert b[0] == TootLines(num, toot, clock)[0];
  }

  /** The first line of a post's block reads back as its display number. */
  lemma FirstLineNumber(num: nat, toot: Toot, clock: Clock)
    ensures ReadNumber(TootLines(num, toot, clock)[0]) == Some(num)
  {
    var o := Opening(num, toot, clock);
    OpeningLayout(num, toot, clock);
    assert TootLines(num, toot, clock)[0] == o[0];
  }

  lemma BlockAt(toots: seq<Toot>, clock: Clock, k: nat)
    requires k < |toots|
    ensures Blocks(toots, clock)[k] == TootLines(|toots| - k, toots[|toots| - 1 - k], clock)
  {
  }

  /** `display_toots(toots)`. */
  method DisplayToots(toots: seq<Toot>, clock: Clock) returns (out: seq<string>)
    ensures out == TimelineLines(toots, clock)
  {
    if |toots| == 0 {
      return [NoTootsNotice];
    }
    ghost var blocks := Blocks(toots, clock);
    var total := |toots|;
    out := [];
    var i := 1;
    while i <= total
      invariant 1 <= i <= total + 1
      invariant out == Concat(blocks[..i - 1])
    {
      var displayNum := total - i + 1;
      var toot := toots[total - i];
      var block := RenderToot(displayNum, toot, clock);
      BlockAt(toots, clock, i - 1);
      assert block == blocks[i - 1];
      ConcatSnoc(blocks, i - 1);
      out := out + block;
      i := i + 1;
    }
    assert blocks[..total] == blocks;
  }
}
