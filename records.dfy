/** The API records the renderers read (the dictionaries the client library
    returns), with the keys they use as typed fields.

    A key read with `d.get(k)` and tested for truthiness is a `string` in
    which "" stands for a missing key, a `None` value and an empty text alike
    (the three behave the same). A key read with `d.get(k, default)` is an
    `Option`, because there a missing key and a present value differ. */
module Records {
  import opened Wrappers

  datatype ProfileField = ProfileField(name: string, value: string)

  datatype Account = Account(
    displayName: string,
    username: string,
    acct: string,
    note: string,
    url: string,
    followingCount: nat,
    followersCount: nat,
    statusesCount: nat,
    fields: seq<ProfileField>)

  datatype Media = Media(kind: Option<string>, description: string, url: Option<string>)

  datatype Emoji = Emoji(shortcode: string, url: string)

  datatype Toot = Toot(
    account: Account,
    content: string,
    createdAt: string,
    reblog: Option<Toot>,
    spoilerText: string,
    media: seq<Media>,
    emojis: seq<Emoji>,
    repliesCount: Option<nat>,
    reblogsCount: Option<nat>,
    favouritesCount: Option<nat>,
    visibility: Option<string>)
}
