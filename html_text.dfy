/** `clean_html`: the tag-stripping substitution `re.sub(r"<[^>]+>", "", s)`
    followed by entity decoding. */
module HtmlText {
  import opened Strings

  /** The pattern `<[^>]+>` matches at the start of `s`: a `<`, at least one
      character that is not `>`, then a `>`. Because `[^>]` cannot cross a `>`,
      the match ends at the first `>` after the `<`. */
  predicate TagAtStart(s: string) {
    |s| >= 2 && s[0] == '<' && s[1] != '>' && FirstIndexOf(s, '>', 1) < |s|
  }

  /** Leftmost, non-overlapping removal of every match of `<[^>]+>`. */
  function StripTags(s: string): (r: string)
    ensures |r| <= |s|
    ensures forall c :: c in r ==> c in s
    decreases |s|
  {
    if s == [] then []
    else if TagAtStart(s) then StripTags(s[FirstIndexOf(s, '>', 1) + 1..])
    else [s[0]] + StripTags(s[1..])
  }

  /** No match of `<[^>]+>` anywhere in `s`: a `<` with some `>` after it is
      immediately followed by that `>`. */
  predicate TagFree(s: string) {
    forall i, j :: 0 <= i < j < |s| && s[i] == '<' && s[j] == '>' ==> s[i + 1] == '>'
  }

  lemma {:induction false} StripTagsIsTagFree(s: string)
    ensures TagFree(StripTags(s))
    decreases |s|
  {
    if s == [] {
    } else if TagAtStart(s) {
      StripTagsIsTagFree(s[FirstIndexOf(s, '>', 1) + 1..]);
    } else {
      var rest := StripTags(s[1..]);
      StripTagsIsTagFree(s[1..]);
      var r := [s[0]] + rest;
      assert r == StripTags(s);
      forall i, j | 0 <= i < j < |r| && r[i] == '<' && r[j] == '>'
        ensures r[i + 1] == '>'
      {
        if i == 0 {
          // the leading `<` was kept, so either no `>` follows it in `s`,
          // or the very next character is `>`
          assert rest[j - 1] == '>';
          assert '>' in rest;
          assert '>' in s[1..];
          if s[1] != '>' {
            assert false;
          }
          assert s[1..][0] == '>';
          assert rest[0] == '>';
        } else {
          assert rest[i - 1] == '<' && rest[j - 1] == '>';
        }
      }
    }
  }

  lemma {:induction false} TagFreeSuffix(s: string)
    requires s != [] && TagFree(s)
    ensures TagFree(s[1..])
  {
    var t := s[1..];
    forall i, j | 0 <= i < j < |t| && t[i] == '<' && t[j] == '>'
      ensures t[i + 1] == '>'
    {
      assert s[i + 1] == '<' && s[j + 1] == '>';
    }
  }

  /** Text with nothing the pattern matches passes the strip step unchanged;
      in particular a text with no `<` does. */
  lemma {:induction false} StripTagsKeepsTagFree(s: string)
    requires TagFree(s)
    ensures StripTags(s) == s
    decreases |s|
  {
    if s != [] {
      if TagAtStart(s) {
        assert false;
      }
      TagFreeSuffix(s);
      StripTagsKeepsTagFree(s[1..]);
    }
  }

  lemma StripTagsNoOpen(s: string)
    ensures '<' !in s ==> StripTags(s) == s
  {
    if '<' !in s {
      StripTagsKeepsTagFree(s);
    }
  }

  /** Stripping twice strips nothing more. */
  lemma StripTagsIdempotent(s: string)
    ensures StripTags(StripTags(s)) == StripTags(s)
  {
    StripTagsIsTagFree(s);
    StripTagsKeepsTagFree(StripTags(s));
  }

  /** The entities decoded at the start of `s`: the decoded character and the
      length of the entity text. */
  function EntityAtStart(s: string): (e: (char, nat))
    ensures e.1 <= |s|
    ensures e.1 > 0 ==> 4 <= e.1 && s[0] == '&' && s[e.1 - 1] == ';'
  {
    if StartsWith(s, "&amp;") then ('&', 5)
    else if StartsWith(s, "&lt;") then ('<', 4)
    else if StartsWith(s, "&gt;") then ('>', 4)
    else if StartsWith(s, "&quot;") then ('"', 6)
    else if StartsWith(s, "&apos;") then ('\'', 6)
    else if StartsWith(s, "&#39;") then ('\'', 5)
    else if StartsWith(s, "&#x27;") then ('\'', 6)
    else ('&', 0)
  }

  /** `html.unescape`, restricted to the entities of `EntityAtStart`; each
      entity is decoded once, left to right, and the decoded text is not
      scanned again. */
  function Unescape(s: string): (r: string)
    ensures |r| <= |s|
    ensures '&' !in s ==> r == s
    decreases |s|
  {
    if s == [] then []
    else
      var e := EntityAtStart(s);
      if e.1 > 0 then [e.0] + Unescape(s[e.1..])
      else [s[0]] + Unescape(s[1..])
  }

  /** `clean_html`: strip the tags, then decode the entities. */
  function CleanHtml(content: string): (text: string)
    ensures |text| <= |content|
    ensures '<' !in content && '&' !in content ==> text == content
  {
    StripTagsNoOpen(content);
    Unescape(StripTags(content))
  }
}
