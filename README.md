# mastodon-cli, modelled in Dafny

mastodon-cli is a small command-line client for Mastodon. It reads its instance URL and credentials from the environment and from a `.env` file. It registers itself as an app, posts toots with media, and prints timelines as numbered text blocks, and profiles as text blocks. This project models the client's own logic and proves properties of it:

- **Rendering** (`utils.py`):
  - `clean_html` strips tags and decodes entities;
  - `format_datetime` picks one of three granularities;
  - `display_toots` prints a timeline in reverse with display numbers and unwraps boosts;
  - `display_account` prints a profile with its optional sections.

  Each renderer yields the sequence of strings it hands to `print`, one entry per call.
- **Configuration** (`config.py`):
  - `load_config_from_env` builds the configuration map from the environment;
  - `save_tokens_to_env` rewrites `CLIENT_ID=`, `CLIENT_SECRET=` and `ACCESS_TOKEN=` lines and appends the missing ones.
- **Client calls** (`mastodon_api.py`):
  - `get_toots` classifies the timeline type;
  - `post_toot` gathers media ids, skipping failed uploads;
  - `create_app` shapes the configuration it returns.

Calls into the Mastodon client library, the date-time parser and the clock are parameters. The text of `.env` is a parameter too: `None` means the file does not exist.

Modules, one file each:
- `wrappers.dfy`: `Option`, `Result`.
- `strings.dfy`: `startswith`, `endswith`, character search, slicing steps.
- `decimal.dfy`: decimal rendering of naturals, zero padding, and reading leading digits back.
- `html_text.dfy`: `clean_html`.
- `date_format.dfy`: `format_datetime`.
- `records.dfy`: the API records.
- `timeline_render.dfy`: `display_toots`.
- `profile_render.dfy`: `display_account`.
- `config.dfy`: `config.py`.
- `mastodon_api.dfy`: `mastodon_api.py`.

The loops of the source are methods with loop invariants:
- `DisplayToots`, `PrintMedia`, `PrintEmojis`, `PrintFields` and `UploadMedia` are each proved equal to a specification function;
- `UpdateEnvLines`, where the `enumerate` loop updates the line list in place under three flags and then appends, is proved to satisfy the relation `TokensSaved`, and `TokensSavedUnique` shows that this relation fixes the written lines.

`RenderToot` and `DisplayAccount` are the straight-line statements of one loop iteration and of `display_account`; each is proved equal to its specification function. The lemmas state what the source promises about those functions.

A boost's content warning, media, emojis, counters and visibility are read from the outer post: `utils.py:75-108` use `toot`, not `original_toot`. `Middle` and `Closing` take the outer post, and `TootBlockLayout` states it.

## Model

| member | source | states |
|---|---|---|
| Decimal.NatToString | utils.py:59 | an integer in an f-string is rendered as at least one decimal digit, with no leading zero unless it is 0 |
| Decimal.NatToStringRoundTrip | utils.py:124-126 | the digits of a rendered count read back as that count |
| Decimal.PadLeft | utils.py:25 | a zero-padded field has exactly the requested width and only digits |
| Decimal.PadLeftRoundTrip | utils.py:25-31 | a zero-padded field reads back as the number padded |
| Decimal.DigitPrefix | utils.py:59 | the longest run of leading digits |
| Decimal.DigitPrefixOf | utils.py:59 | digits followed by a non-digit are read back exactly |
| HtmlText.EntityAtStart | utils.py:13 | in the modelled subset, an entity is decoded only from a complete `&...;` reference of at least 4 characters at the start of the text |
| HtmlText.StripTags | utils.py:11 | removing `<[^>]+>` matches never lengthens the text and keeps only characters of the input |
| HtmlText.StripTagsIsTagFree | utils.py:11 | after stripping, no `<` is followed later by a `>` unless it is the empty pair `<>` |
| HtmlText.StripTagsKeepsTagFree | utils.py:11 | a text with no tag left is returned unchanged by the strip step |
| HtmlText.StripTagsNoOpen | utils.py:11 | a text with no `<` is returned unchanged by the strip step |
| HtmlText.StripTagsIdempotent | utils.py:11 | stripping twice equals stripping once |
| HtmlText.Unescape | utils.py:13 | decoding entities never lengthens the text, and a text with no `&` is unchanged |
| HtmlText.CleanHtml | utils.py:8-14 | the cleaned text is never longer than the content, and content with neither `<` nor `&` comes back as it is |
| DateFormat.TierOf | utils.py:24-31 | time only exactly when the date equals today's; month and day exactly when the year is this year but the date differs; the full date exactly when the year differs |
| DateFormat.Two | utils.py:25-31 | a two-digit zero-padded field that reads back as its value |
| DateFormat.Four | utils.py:31 | a four-digit year field that reads back as the year |
| DateFormat.Strftime | utils.py:24-31 | `%H:%M:%S` is 8 characters, `%m/%d %H:%M` 11 and `%Y/%m/%d %H:%M` 16 |
| DateFormat.FormatDateTime | utils.py:19-33 | when the parser fails the raw string is returned unchanged |
| DateFormat.TimeOnlyReadBack | utils.py:25 | `%H:%M:%S` is 8 characters, with colons at 2 and 5 and fields reading back as hour, minute and second |
| DateFormat.MonthDayReadBack | utils.py:28 | `%m/%d %H:%M` is 11 characters, with separators at fixed places and fields reading back as month, day, hour and minute |
| DateFormat.FullDateReadBack | utils.py:31 | `%Y/%m/%d %H:%M` is 16 characters, with separators at fixed places and fields reading back as year, month, day, hour and minute |
| DateFormat.YearInFront | utils.py:31 | a four-digit year and a slash in front of the `%m/%d %H:%M` text give the 16-character form with every field read back in place |
| DateFormat.FieldShift | utils.py:31 | a field keeps its place and value after the year prefix |
| DateFormat.FormatDateTimeTiers | utils.py:24-31 | same date gives the 8-character time, same year gives the 11-character form, another year gives the 16-character form |
| TimelineRender.DisplayName | utils.py:50-61 | the name shown is the display name, or the user name when the display name is empty; it is empty only when both are |
| TimelineRender.Shown | utils.py:48-64 | for a boost the boosted post, which is never the outer post; otherwise the post itself |
| TimelineRender.BoostCredit | utils.py:50-59 | the credit line reads back as the display number and ends with the booster's name and the "boosted" label |
| TimelineRender.Byline | utils.py:67-70 | the byline starts with the author's shown name and ends with the formatted time of the post |
| TimelineRender.Header | utils.py:70 | the header line reads back as the display number and ends with the byline |
| TimelineRender.ContentWarningShown | utils.py:75-76 | the `[CW]` line, ending with the spoiler text, appears exactly when the spoiler text is non-empty, and at most once |
| TimelineRender.EmojiLineLayout | utils.py:91 | the shortcode between colons comes first and the image URL last |
| TimelineRender.MediaLineDefaults | utils.py:82-85 | a missing type, an empty description and a missing URL each print as their placeholder, independently of the other two fields |
| TimelineRender.VisibilityIcon | utils.py:102-108 | the icon is "?" exactly when the visibility is not one of the four known values |
| TimelineRender.Opening | utils.py:48-72 | a boost opens with 4 lines, any other post with 3 |
| TimelineRender.Closing | utils.py:94-110 | counters, visibility and the closing rule: 3 lines |
| TimelineRender.TootLines | utils.py:47-110 | a post's block has at least 6 lines |
| TimelineRender.NumberTagReadBack | utils.py:70 | a line starting with the `[n]` tag reads back as n |
| TimelineRender.OpeningLayout | utils.py:48-72 | for a boost, a credit line with the same number precedes the header; the header, the time and the cleaned body are those of the boosted post |
| TimelineRender.TootBlockLayout | utils.py:48-110 | the first line reads back as the number; the header and body of the shown post sit after the optional credit line; the CW, media and emojis of the outer post follow; counters, visibility and rule close the block |
| TimelineRender.CountersDefaults | utils.py:94-98 | each missing counter prints as 0, independently of the other two; all three missing print as `💬 0 🔁 0 ⭐ 0` |
| TimelineRender.VisibilityDefault | utils.py:101-108 | a missing visibility prints as public with its icon |
| TimelineRender.BoostHidesOuterPost | utils.py:48-72 | for a boost, the outer post's content, time and author change nothing printed, as long as the booster's shown name stays the same |
| TimelineRender.PrintMedia | utils.py:79-85 | the media loop prints the heading and one line per attachment only when there are attachments |
| TimelineRender.PrintEmojis | utils.py:88-91 | the emoji loop prints the heading and one line per emoji only when there are emojis |
| TimelineRender.RenderToot | utils.py:47-110 | the statements for one post print exactly that post's block |
| TimelineRender.Reversed | utils.py:44 | reversal keeps the length |
| TimelineRender.ReversedAt | utils.py:44 | element k of the reversal is element N-1-k of the input |
| TimelineRender.Enumerate | utils.py:44 | `enumerate(s, start)` pairs element k with start+k |
| TimelineRender.DisplayOrder | utils.py:43-46 | the k-th post shown is toots[N-1-k], with display number N-k |
| TimelineRender.CountDown | utils.py:46 | N numbers |
| TimelineRender.CountDownAt | utils.py:46 | the k-th number of the countdown is N-k |
| TimelineRender.CountDownMembers | utils.py:46 | the countdown holds each of 1..N and nothing else |
| TimelineRender.DisplayNumbering | utils.py:43-46 | numbers run from N down to 1, each of 1..N is used exactly once, and number n labels toots[n-1] |
| TimelineRender.ConcatSnoc | utils.py:44 | printing one more block appends that block |
| TimelineRender.Blocks | utils.py:44 | one block per post |
| TimelineRender.TimelineLines | utils.py:38-40 | the output is the "no toots" notice alone exactly when the list is empty |
| TimelineRender.BlockAt | utils.py:43-46 | the k-th block is the block of toots[N-1-k] numbered N-k |
| TimelineRender.FirstLineNumber | utils.py:59-70 | a block's first line reads back as its display number |
| TimelineRender.TimelineBlockNumbers | utils.py:43-70 | the k-th block printed belongs to toots[N-1-k] and its first line reads back as N-k |
| TimelineRender.DisplayToots | utils.py:36-110 | the loop over `enumerate(reversed(toots), 1)` prints exactly the timeline's lines |
| ProfileRender.CountsLineReadBack | utils.py:123-127 | the counts line reads back as exactly the following, followers and statuses counts, in that order |
| ProfileRender.NumberThenReadBack | utils.py:123-127 | a rendered count followed by a separator that starts with a non-digit reads back as that count and the rest of the line |
| ProfileRender.ThreeNumbersReadBack | utils.py:123-127 | three rendered counts between two such separators read back as the three counts in order |
| ProfileRender.Identity | utils.py:115-117 | heading, name and handle: 3 lines |
| ProfileRender.Summary | utils.py:115-130 | 4 lines, plus one for a bio and one for a URL |
| ProfileRender.AccountLines | utils.py:113-137 | a profile has at least 4 lines |
| ProfileRender.PrintFields | utils.py:132-137 | the fields loop prints the heading and one line per field only when there are fields |
| ProfileRender.DisplayAccount | utils.py:113-137 | the statements of `display_account` print exactly the profile's lines |
| ProfileRender.AccountLayout | utils.py:113-137 | the line count; the heading, name and handle first; the bio line at 3 only with a note; counts next; the URL line only with a URL; the field lines last and in order |
| ProfileRender.OptionalSectionsIff | utils.py:119-130 | a bio line appears exactly when the note is non-empty, and a URL line exactly when the URL is non-empty |
| ProfileRender.LineKinds | utils.py:115-137 | no other line of a profile starts like the bio line or the URL line |
| Config.LoadConfigFromEnv | config.py:19-38 | None exactly when the instance URL is unset or empty; client id and secret both present or both absent, present exactly when both are non-empty; the access token present exactly when non-empty; values taken from the environment; no other keys |
| Config.InitialEnvLine | config.py:44-46 | the line written into a new `.env` starts with `MASTODON_INSTANCE_URL=` and ends with a newline; with the variable unset its value is empty |
| Config.StartingLines | config.py:44-50 | the lines the save starts from join back to the existing file's text, or to the line written into the new file |
| Config.ReadLines | config.py:49-50 | `readlines` pieces join back to the file text, none is empty, and each ends at its only newline except perhaps the last |
| Config.ReadLinesCons | config.py:50 | a newline-terminated first line is read off the front of the text |
| Config.ReadLinesJoinLines | config.py:50-78 | lines that each end at their only newline are read back unchanged from the text written |
| Config.MissingFileStartsWithOneLine | config.py:44-50 | a missing `.env` yields the single `MASTODON_INSTANCE_URL=<url>` line |
| Config.PrefixesExclusive | config.py:58-64 | no line starts with two of the three key prefixes |
| Config.MissingLines | config.py:69-74 | at most three keys are appended |
| Config.RewriteLine | config.py:57-66 | rewriting a line never changes which of the three key prefixes it starts with, and leaves a line it does not handle unchanged |
| Config.TokensSaved | config.py:57-74 | defines the update rules: client id and secret lines rewritten, access token lines rewritten only with a token, other lines kept in place, the missing keys appended in order |
| Config.JoinLines | config.py:78 | defines `writelines`: the lines written one after another |
| Config.RewrittenLinesSaved | config.py:57-74 | rewriting each line and appending the missing keys satisfies the update rules |
| Config.UpdateEnvLines | config.py:53-74 | every `CLIENT_ID=` and `CLIENT_SECRET=` line rewritten; `ACCESS_TOKEN=` lines rewritten only with a token; other lines kept in place; the missing keys appended in order; the new length is the old one plus the number appended |
| Config.HasLineSnoc | config.py:57-66 | a flag set during the loop means that a line with its prefix was seen |
| Config.TokenLinesStart | config.py:59-74 | each written key line starts with its key prefix |
| Config.SavedLinesPresent | config.py:57-74 | after a save, nothing remains to append, and every key line carries the saved value |
| Config.SaveTokensIdempotent | config.py:57-74 | saving the same tokens again writes the same lines |
| Config.TokensSavedUnique | config.py:57-74 | the update rules fix the written lines completely |
| Config.SaveTokensToEnv | config.py:41-78 | the lines written back are the update of the lines read, or of the one-line file created when none existed |
| Config.ReadLinesUnterminated | config.py:50 | a text with no newline is one unterminated line |
| Config.UnterminatedSaveWrites | config.py:57-72 | saving into a lone unterminated URL line appends the client id and secret lines after it |
| Config.UnterminatedReread | config.py:78 | that file reads back with the client id line glued to the URL line |
| Config.ReadThreeJoined | config.py:78 | three lines whose first lacks its newline read back as two |
| Config.MergedLinesLackClientId | config.py:58 | the glued file has no line starting `CLIENT_ID=` |
| Config.UnterminatedLastLineMerges | config.py:49-78 | as written, saving into a `.env` whose URL line lacks its final newline loses the client id line when the file is read back |
| Config.Terminated | config.py:50 | all lines but the last are kept; the text only gains a final newline when it lacked one; afterwards every line ends at its only newline |
| Config.JoinLinesSnoc | config.py:78 | writing one more line appends it |
| Config.SavedLinesAreLines | config.py:57-74 | with newline-free values, a save of terminated lines writes only terminated lines |
| Config.KeyLinesAreLines | config.py:59-74 | a key line with a newline-free value ends at its only newline |
| Config.SaveTokensToEnvTerminated | config.py:41-78 | the corrected save, kept beside the one `create_app` calls: the update rules on the terminated lines, and the written file reads back as exactly the lines written |
| MastodonApi.AfterFirstColon | mastodon_api.py:117 | `split(":", 1)[1]` is everything after the first colon |
| MastodonApi.TimelineFor | mastodon_api.py:109-125 | "home", "local" and "public" select their timelines exactly when the string equals them; a `tag:` or `list:` prefix selects the hashtag or list named by the rest of the string |
| MastodonApi.UnknownTimeline | mastodon_api.py:123-125 | no timeline exactly when the string is none of the names and has neither prefix |
| MastodonApi.TimelineExamples | mastodon_api.py:115-122 | "tag:a:b" names "a:b", "tag:" names "", "list:42" names list 42, while "tag" and "Home" name nothing |
| MastodonApi.GetToots | mastodon_api.py:106-130 | an unknown type prints its message and returns None; a failing call prints the error and returns None; otherwise the fetched toots are returned with nothing printed |
| MastodonApi.GetTootsSucceeds | mastodon_api.py:106-130 | toots are returned exactly when a timeline is named and its call succeeds, and they are that call's result |
| MastodonApi.UploadErrorLine | mastodon_api.py:89 | the line for a failed upload names the file in parentheses and ends with the error |
| MastodonApi.UploadedIds | mastodon_api.py:80-89 | never more ids than `media_post` calls |
| MastodonApi.UploadErrors | mastodon_api.py:85-89 | never more error lines than files |
| MastodonApi.UploadsAccounted | mastodon_api.py:83-89 | each file yields either an id or an error line |
| MastodonApi.UploadedIdsExtremes | mastodon_api.py:83-89 | all uploads succeeding gives every id in file order; all failing gives none |
| MastodonApi.UploadFailureSkipped | mastodon_api.py:85-89 | a failed upload neither aborts the loop nor changes the ids gathered |
| MastodonApi.RepeatedPathUploads | mastodon_api.py:83-89 | a path given twice is uploaded twice, and each call keeps its own id or error |
| MastodonApi.UploadMedia | mastodon_api.py:80-89 | the loop gathers the successful ids in order and prints one line per failure, the i-th call's outcome belonging to the i-th file |
| MastodonApi.PostToot | mastodon_api.py:71-103 | the status is posted with the gathered ids, or `media_ids=None` when there are none; returns the post, or None and the error line when posting fails |
| MastodonApi.AppConfig | mastodon_api.py:24-28 | exactly the keys instance_url, client_id and client_secret |
| MastodonApi.CreateApp | mastodon_api.py:10-34 | registers under the fixed name and scopes with the website from the environment; on success returns exactly the three-key configuration and saves the id and secret without a token, by the update rules of `save_tokens_to_env` as written on the lines read; on failure prints the error and exits with status 1 |

## Left out

- `main.py`: argument parsing, `parser.print_help`, subcommand dispatch, `sys.exit`, and the `lstrip("#")` and `lstrip("@")` of its arguments. Besides the modelled functions it calls `mastodon_api.authenticate` (main.py:84) and the library's `account_lookup` and `me` (main.py:130, 133), and it prints its own messages (main.py:77-80, 99, 108, 119, 137).
- The Mastodon client library (`Mastodon.create_app`, `status_post`, `timeline_*`): each is a function parameter returning a `Result`, with the exception text as the error. `me` and `account_lookup` are left out together with their callers, `authenticate` and `main.py`. `media_post` is given as the sequence of its outcomes, one per call in file order, so that repeated paths are uploaded separately.
- `dateutil.parser.parse` and `datetime.now()`: the parser is the `parse` field of `Clock`, and local now is its `now` field. Time zones are not modelled: the parsed fields are compared with now's as given, as the source compares `dt.date()` with `now.date()` without converting.
- TimelineRender.DisplayToots: one `now`, the `now` field of `Clock`, stands for every call of `datetime.now()` in a timeline, while the source reads the clock again in each `format_datetime` call. A timeline printed across midnight or New Year may choose a post's format against a later time than the model's.
- DateFormat.Four: always pads the year to four digits, while some C libraries print years below 1000 without padding.
- HtmlText.Unescape: decodes only `&amp;`, `&lt;`, `&gt;`, `&quot;`, `&apos;`, `&#39;` and `&#x27;`; the rest of the HTML5 entity table in `html.unescape` is not modelled. `clean_html` is not claimed idempotent, and `html.unescape` is not idempotent either: decoding can produce a new entity, as "&amp;lt;" decodes to "&lt;". The real `html.unescape` also decodes references without the closing `;` (`&amp`, `&lt`, numeric references), which the subset does not.
- File and OS input/output in `config.py`: `load_dotenv`, `open`, `exists`, `write` and the `chmod` to 0o600. The file's text is an input and the written lines are the output.
- Config.ReadLines: splits at `\n` only, without the universal-newline translation of `\r` and `\r\n` that text-mode reading performs.
- `load_config`: it only returns `load_config_from_env()`.
- `create_app_interactive`, `authenticate` and `setup`: besides `input`, `getpass`, prints, library calls and `sys.exit`, `create_app_interactive` writes the one-line `.env` file and chmods it (config.py:89-93), and `authenticate` calls `config.save_tokens_to_env(client_id, client_secret, access_token)` (mastodon_api.py:59-61), the only call that passes a token. `Config.SaveTokensToEnv` called with `Some(token)` stands for that call.
- Records: every key the source reads with `[...]` is assumed present, since the record types make it a required field: the toot's `account`, `content` and `created_at`, the account's `display_name`, `acct` and three counts, its `username` when `display_name` is empty, the emoji's `shortcode` and `url`, and the profile field's `name` and `value`. On a missing key the source raises `KeyError`, which the model does not capture.
- Python truthiness of records: a key read with `get` and tested for truthiness is a string with "" for missing. A key read with a default is an `Option`. A key present with value `None` where a default is used (which prints `None`) is not distinguished. A boost is `reblog.Some?`, so an empty reblog dictionary is not modelled.
- Exceptions raised by the `.env` file operations inside `create_app`'s `try` are not modelled; only a failing registration exits.
- MastodonApi.PostToot: a `media_files` of `None` is modelled as the empty sequence.
- Glyphs and Japanese labels are opaque string constants taken from the source.

## Findings

| source | as written | input that shows it | evidently intended | confidence | as-written member | corrected member |
|---|---|---|---|---|---|---|
| config.py:49-78 | the missing keys are appended after the last line read, whether or not that line ends in a newline | a `.env` containing `MASTODON_INSTANCE_URL=https://mastodon.social` with no final newline, saved with a client id and secret, is written as `MASTODON_INSTANCE_URL=https://mastodon.socialCLIENT_ID=<id>` followed by the secret line; reading it back gives a corrupted URL and no client id | each appended key is a line of its own, so that the saved keys are found when the file is read again | medium, not executed | Config.UnterminatedLastLineMerges | Config.SaveTokensToEnvTerminated |

`CreateApp` calls the save as written, as `create_app` does, so that it models the source. The corrected save is a separate method beside it.
