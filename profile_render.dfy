/** `display_account`: a profile as the sequence of strings handed to
    `print`, one entry per call. */
module ProfileRender {
  import opened Wrappers
  import opened Decimal
  import opened HtmlText
  import opened Records
  import opened Strings

  const ProfileHeading: string := "\n📝 アカウント情報:"
  const NamePrefix: string := "名前: "
  const HandlePrefix: string := "ユーザー名: @"
  const BioPrefix: string := "\n自己紹介:\n"
  const UrlPrefix: string := "プロフィールURL: "
  const FieldsHeading: string := "\nプロフィール項目:"
  const CountsPrefix: string := "\nフォロー: "
  const FieldPrefix: string := "- "
  const FollowersSeparator: string := " フォロワー: "
  const StatusesSeparator: string := " 投稿数: "

  function BioLine(a: Account): string {
    BioPrefix + CleanHtml(a.note)
  }

  /** Following, followers and statuses, in that order. */
  function CountsLine(a: Account): string {
    CountsPrefix + (NatToString(a.followingCount) + (FollowersSeparator
    + (NatToString(a.followersCount) + (StatusesSeparator
    + NatToString(a.statusesCount)))))
  }

  /** The counts line reads back as exactly the three counts, in the order
      following, followers, statuses. */
  lemma CountsLineReadBack(a: Account)
    ensures ReadCounts(CountsLine(a)) == Some((a.followingCount, a.followersCount, a.statusesCount))
  {
    var numbers := NatToString(a.followingCount) + (FollowersSeparator
                   + (NatToString(a.followersCount) + (StatusesSeparator
                   + NatToString(a.statusesCount))));
    ThreeNumbersReadBack(a.followingCount, a.followersCount, a.statusesCount,
                         FollowersSeparator, StatusesSeparator);
    StartsWithConcat(CountsPrefix, numbers);
    assert (CountsPrefix + numbers)[|CountsPrefix|..] == numbers;
  }

  /** The three numbers of a counts line, in the order printed; None for a
      line of another shape. */
  function ReadCounts(line: string): Option<(nat, nat, nat)> {
    if StartsWith(line, CountsPrefix)
    then ReadThreeNumbers(line[|CountsPrefix|..], FollowersSeparator, StatusesSeparator)
    else None
  }

  /** A run of digits and the separator `sep` after it: the number and
      what follows the separator. */
  function NumberThen(s: string, sep: string): Option<(nat, string)> {
    var d := DigitPrefix(s);
    if d != [] && StartsWith(s[|d|..], sep) then Some((DigitsValue(d), s[|d| + |sep|..])) else None
  }

  /** Three runs of digits separated by `sep1` and `sep2`. */
  function ReadThreeNumbers(s: string, sep1: string, sep2: string): Option<(nat, nat, nat)> {
    match NumberThen(s, sep1)
    case None => None
    case Some((x, s1)) =>
      match NumberThen(s1, sep2)
      case None => None
      case Some((y, s2)) => if s2 != [] && AllDigits(s2) then Some((x, y, DigitsValue(s2))) else None
  }

  lemma NumberThenReadBack(x: nat, sep: string, rest: string)
    requires sep != [] && !IsDigit(sep[0])
    ensures NumberThen(NatToString(x) + (sep + rest), sep) == Some((x, rest))
  {
    var d := NatToString(x);
    var s := d + (sep + rest);
    DigitPrefixOf(d, sep + rest);
    assert s[|d|..] == sep + rest;
    StartsWithConcat(sep, rest);
    assert s[|d| + |sep|..] == rest;
    NatToStringRoundTrip(x);
  }

  lemma ThreeNumbersReadBack(x: nat, y: nat, z: nat, sep1: string, sep2: string)
    requires sep1 != [] && !IsDigit(sep1[0])
    requires sep2 != [] && !IsDigit(sep2[0])
    ensures ReadThreeNumbers(NatToString(x) + (sep1 + (NatToString(y) + (sep2 + NatToString(z)))), sep1, sep2)
            == Some((x, y, z))
  {
    var dx, dy, dz := NatToString(x), NatToString(y), NatToString(z);
    var s1 := dy + (sep2 + dz);
    NumberThenReadBack(x, sep1, s1);
    NumberThenReadBack(y, sep2, dz);
    NatToStringRoundTrip(z);
    assert NumberThen(dx + (sep1 + s1), sep1) == Some((x, s1));
    assert NumberThen(s1, sep2) == Some((y, dz));
  }

  function UrlLine(a: Account): string {
    UrlPrefix + a.url
  }

  function FieldLine(f: ProfileField): string {
    FieldPrefix + (CleanHtml(f.name) + ": " + CleanHtml(f.value))
  }

  function FieldLines(fs: seq<ProfileField>): (lines: seq<string>)
    ensures |lines| == |fs|
    ensures forall i :: 0 <= i < |fs| ==> lines[i] == FieldLine(fs[i])
  {
    seq(|fs|, i requires 0 <= i < |fs| => FieldLine(fs[i]))
  }

  function Identity(a: Account): (lines: seq<string>)
    ensures |lines| == 3
  {
    [ProfileHeading, NamePrefix + a.displayName, HandlePrefix + a.acct]
  }

  function BioSection(a: Account): seq<string> {
    if a.note != "" then [BioLine(a)] else []
  }

  function UrlSection(a: Account): seq<string> {
    if a.url != "" then [UrlLine(a)] else []
  }

  function FieldsSection(fs: seq<ProfileField>): seq<string> {
    if fs == [] then [] else [FieldsHeading] + FieldLines(fs)
  }

  /** The lines before the fields section. */
  function Summary(a: Account): (lines: seq<string>)
    ensures |lines| == 4 + (if a.note != "" then 1 else 0) + (if a.url != "" then 1 else 0)
  {
    Identity(a) + BioSection(a) + [CountsLine(a)] + UrlSection(a)
  }

  /** Everything `display_account(a)` prints. */
  function AccountLines(a: Account): (lines: seq<string>)
    ensures |lines| >= 4
  {
    Summary(a) + FieldsSection(a.fields)
  }

  /** The loop over the profile fields. */
  method PrintFields(fs: seq<ProfileField>) returns (out: seq<string>)
    ensures out == FieldsSection(fs)
  {
    out := [];
    if fs != [] {
      ghost var lines := FieldLines(fs);
      out := [FieldsHeading];
      for i := 0 to |fs|
        invariant out == [FieldsHeading] + lines[..i]
      {
        var name := CleanHtml(fs[i].name);
        var value := CleanHtml(fs[i].value);
        TakeSnoc(lines, i);
        out := out + [FieldPrefix + (name + ": " + value)];
      }
      assert lines[..|fs|] == lines;
    }
  }

  /** `display_account(a)`. */
  method DisplayAccount(a: Account) returns (out: seq<string>)
    ensures out == AccountLines(a)
  {
    out := [ProfileHeading, NamePrefix + a.displayName, HandlePrefix + a.acct];
    if a.note != "" {
      var bio := CleanHtml(a.note);
      out := out + [BioPrefix + bio];
    }
    out := out + [CountsLine(a)];
    if a.url != "" {
      out := out + [UrlPrefix + a.url];
    }
    assert out == Summary(a);
    var fields := PrintFields(a.fields);
    out := out + fields;
  }

  /** Where each line of a profile sits: the bio line only when there is a
      note, the counts line next, the URL line only when there is a URL, and
      the fields section last and only when there are fields, with one line
      per field in order. */
  lemma AccountLayout(a: Account)
    ensures var lines := AccountLines(a);
            var nb := if a.note != "" then 1 else 0;
            var nu := if a.url != "" then 1 else 0;
            && |lines| == 4 + nb + nu + (if a.fields == [] then 0 else 1 + |a.fields|)
            && lines[0] == ProfileHeading
            && lines[1] == NamePrefix + a.displayName
            && lines[2] == HandlePrefix + a.acct
            && (a.note != "" ==> lines[3] == BioLine(a))
            && lines[3 + nb] == CountsLine(a)
            && (a.url != "" ==> lines[4 + nb] == UrlLine(a))
            && (a.fields != [] ==> lines[4 + nb + nu] == FieldsHeading)
            && lines[|lines| - |a.fields|..] == FieldLines(a.fields)
  {
    var lines := AccountLines(a);
    var fields := FieldsSection(a.fields);
    var head := Identity(a) + BioSection(a);
    var summary := Summary(a);
    ThreeParts(head, [CountsLine(a)], UrlSection(a));
    ThreeParts(Identity(a), BioSection(a), []);
    assert summary == head + [CountsLine(a)] + UrlSection(a);
    ThreeParts(summary, fields, []);
    assert lines == summary + fields + [];
    assert lines[..|summary|] == summary;
    assert lines[|summary|..] == fields;
    if a.fields != [] {
      assert fields[1..] == FieldLines(a.fields);
    }
  }

  predicate SomeLineStartsWith(lines: seq<string>, prefix: string) {
    exists i :: 0 <= i < |lines| && StartsWith(lines[i], prefix)
  }

  /** The bio appears exactly when the note is non-empty and the URL line
      exactly when the URL is non-empty: no other line of a profile begins
      like either of them. */
  lemma OptionalSectionsIff(a: Account)
    ensures SomeLineStartsWith(AccountLines(a), BioPrefix) <==> a.note != ""
    ensures SomeLineStartsWith(AccountLines(a), UrlPrefix) <==> a.url != ""
  {
    var lines := AccountLines(a);
    AccountLayout(a);
    var nb := if a.note != "" then 1 else 0;
    if a.note != "" {
      assert StartsWith(lines[3], BioPrefix);
    }
    if a.url != "" {
      assert StartsWith(lines[4 + nb], UrlPrefix);
    }
    forall i | 0 <= i < |lines|
      ensures !(a.note != "" && i == 3) ==> !StartsWith(lines[i], BioPrefix)
      ensures !(a.url != "" && i == 4 + nb) ==> !StartsWith(lines[i], UrlPrefix)
    {
      LineKinds(a, i);
    }
  }

  /** Every line of a profile other than the bio line starts differently from
      the bio prefix, and every line other than the URL line differently from
      the URL prefix. */
  lemma LineKinds(a: Account, i: nat)
    requires i < |AccountLines(a)|
    ensures var line := AccountLines(a)[i];
            var nb := if a.note != "" then 1 else 0;
            && (!(a.note != "" && i == 3) ==> !StartsWith(line, BioPrefix))
            && (!(a.url != "" && i == 4 + nb) ==> !StartsWith(line, UrlPrefix))
  {
    AccountLayout(a);
    var nb := if a.note != "" then 1 else 0;
    var nu := if a.url != "" then 1 else 0;
    if i == 0 {
      PrefixesDiffer(ProfileHeading, [], BioPrefix, 1);
      PrefixesDiffer(ProfileHeading, [], UrlPrefix, 0);
      assert ProfileHeading + [] == ProfileHeading;
    } else if i == 1 {
      PrefixesDiffer(NamePrefix, a.displayName, BioPrefix, 0);
      PrefixesDiffer(NamePrefix, a.displayName, UrlPrefix, 0);
    } else if i == 2 {
      PrefixesDiffer(HandlePrefix, a.acct, BioPrefix, 0);
      PrefixesDiffer(HandlePrefix, a.acct, UrlPrefix, 0);
    } else if i == 3 && a.note != "" {
      PrefixesDiffer(BioPrefix, CleanHtml(a.note), UrlPrefix, 0);
    } else if i == 3 + nb {
      var rest := NatToString(a.followingCount) + (FollowersSeparator + (NatToString(a.followersCount)
        + (StatusesSeparator + NatToString(a.statusesCount))));
      PrefixesDiffer(CountsPrefix, rest, BioPrefix, 1);
      PrefixesDiffer(CountsPrefix, rest, UrlPrefix, 0);
    } else if i == 4 + nb && a.url != "" {
      PrefixesDiffer(UrlPrefix, a.url, BioPrefix, 0);
    } else if i == 4 + nb + nu {
      PrefixesDiffer(FieldsHeading, [], BioPrefix, 1);
      PrefixesDiffer(FieldsHeading, [], UrlPrefix, 0);
      assert FieldsHeading + [] == FieldsHeading;
    } else {
      var f := a.fields[i - (5 + nb + nu)];
      var rest := CleanHtml(f.name) + ": " + CleanHtml(f.value);
      PrefixesDiffer(FieldPrefix, rest, BioPrefix, 0);
      PrefixesDiffer(FieldPrefix, rest, UrlPrefix, 0);
    }
  }
}
