/** `config.py`: the configuration read from the environment, and the update
    of the `.env` file's lines when tokens are saved. */
module Config {
  import opened Wrappers
  import opened Strings

  /** The process environment (after `.env` has been loaded into it). */
  type Env = map<string, string>

  const InstanceUrlVar: string := "MASTODON_INSTANCE_URL"
  const ClientIdVar: string := "CLIENT_ID"
  const ClientSecretVar: string := "CLIENT_SECRET"
  const AccessTokenVar: string := "ACCESS_TOKEN"

  const InstanceUrlKey: string := "instance_url"
  const ClientIdKey: string := "client_id"
  const ClientSecretKey: string := "client_secret"
  const AccessTokenKey: string := "access_token"

  /** `os.getenv(name)`. */
  function Getenv(env: Env, name: string): Option<string> {
    if name in env then Some(env[name]) else None
  }

  /** Python truthiness of an optional string: present and non-empty. */
  predicate Truthy(v: Option<string>) {
    v.Some? && v.value != ""
  }

  // ---------------------------------------------------------------------
  // load_config_from_env

  /** `load_config_from_env()`: None without an instance URL; otherwise the
      URL, the client credentials only as a pair, and the access token, each
      only when set and non-empty. */
  function LoadConfigFromEnv(env: Env): (config: Option<map<string, string>>)
    ensures config.None? <==> !Truthy(Getenv(env, InstanceUrlVar))
    ensures config.Some? ==>
      var c := config.value;
      && c.Keys <= {InstanceUrlKey, ClientIdKey, ClientSecretKey, AccessTokenKey}
      && InstanceUrlKey in c && c[InstanceUrlKey] == env[InstanceUrlVar]
      && (ClientIdKey in c <==> Truthy(Getenv(env, ClientIdVar)) && Truthy(Getenv(env, ClientSecretVar)))
      && (ClientSecretKey in c <==> ClientIdKey in c)
      && (ClientIdKey in c ==> c[ClientIdKey] == env[ClientIdVar] && c[ClientSecretKey] == env[ClientSecretVar])
      && (AccessTokenKey in c <==> Truthy(Getenv(env, AccessTokenVar)))
      && (AccessTokenKey in c ==> c[AccessTokenKey] == env[AccessTokenVar])
  {
    var instanceUrl := Getenv(env, InstanceUrlVar);
    var clientId := Getenv(env, ClientIdVar);
    var clientSecret := Getenv(env, ClientSecretVar);
    var accessToken := Getenv(env, AccessTokenVar);
    if !Truthy(instanceUrl) then None
    else
      var base := map[InstanceUrlKey := instanceUrl.value];
      var withClient :=
        if Truthy(clientId) && Truthy(clientSecret)
        then base[ClientIdKey := clientId.value][ClientSecretKey := clientSecret.value]
        else base;
      Some(if Truthy(accessToken) then withClient[AccessTokenKey := accessToken.value] else withClient)
  }

  // ---------------------------------------------------------------------
  // Reading and writing the lines of a file

  /** `f.readlines()`: the text cut after every newline, each piece keeping
      its newline; a last piece without one is kept as it is. */
  function ReadLines(content: string): (lines: seq<string>)
    ensures JoinLines(lines) == content
    ensures forall i :: 0 <= i < |lines| ==> lines[i] != ""
    ensures forall i :: 0 <= i < |lines| - 1 ==> IsLine(lines[i])
    ensures |lines| > 0 ==> IsLine(lines[|lines| - 1]) || '\n' !in lines[|lines| - 1]
    decreases |content|
  {
    if content == [] then []
    else
      var j := FirstIndexOf(content, '\n', 0);
      if j == |content| then [content]
      else
        var first := content[..j + 1];
        var rest := ReadLines(content[j + 1..]);
        assert first[..|first| - 1] == content[..j];
        assert IsLine(first);
        JoinLinesCons(first, rest);
        assert content == first + content[j + 1..];
        [first] + rest
  }

  lemma JoinLinesCons(first: string, rest: seq<string>)
    ensures JoinLines([first] + rest) == first + JoinLines(rest)
  {
    assert ([first] + rest)[1..] == rest;
  }

  /** `f.writelines(lines)`: the lines written one after another. */
  function JoinLines(lines: seq<string>): string {
    if lines == [] then "" else lines[0] + JoinLines(lines[1..])
  }

  /** The line written into a missing `.env` file before it is read back. */
  function InitialEnvLine(env: Env): (line: string)
    ensures StartsWith(line, InstanceUrlVar + "=") && line[|line| - 1] == '\n'
    ensures Getenv(env, InstanceUrlVar).None? ==> line == InstanceUrlVar + "=\n"
  {
    InstanceUrlVar + "=" + Getenv(env, InstanceUrlVar).GetOr("") + "\n"
  }

  /** The lines `save_tokens_to_env` starts from: those of the existing file,
      or those of the one-line file it creates when there is none. */
  function StartingLines(existing: Option<string>, env: Env): (lines: seq<string>)
    ensures existing.Some? ==> JoinLines(lines) == existing.value
    ensures existing.None? ==> JoinLines(lines) == InitialEnvLine(env)
  {
    ReadLines(if existing.Some? then existing.value else InitialEnvLine(env))
  }

  /** A line: a newline at its end and nowhere else. */
  predicate IsLine(l: string) {
    |l| >= 1 && l[|l| - 1] == '\n' && '\n' !in l[..|l| - 1]
  }

  /** A text that starts with a newline-free `p` and a newline is read as
      that line followed by the lines of the rest. */
  lemma ReadLinesCons(p: string, rest: string)
    requires '\n' !in p
    ensures ReadLines(p + "\n" + rest) == [p + "\n"] + ReadLines(rest)
  {
    var s := p + "\n" + rest;
    assert s[|p|] == '\n';
    var j := FirstIndexOf(s, '\n', 0);
    assert s[..j + 1] == p + "\n";
    assert s[j + 1..] == rest;
  }

  /** Lines that each end in their only newline are read back unchanged from
      the text they make up. */
  lemma {:induction false} ReadLinesJoinLines(lines: seq<string>)
    requires forall i :: 0 <= i < |lines| ==> IsLine(lines[i])
    ensures ReadLines(JoinLines(lines)) == lines
  {
    if lines != [] {
      var l := lines[0];
      var p := l[..|l| - 1];
      assert l == p + "\n";
      ReadLinesCons(p, JoinLines(lines[1..]));
      ReadLinesJoinLines(lines[1..]);
    }
  }

  /** Without a newline in the instance URL, a missing file yields exactly the
      single line `MASTODON_INSTANCE_URL=<url>`. */
  lemma MissingFileStartsWithOneLine(env: Env)
    requires '\n' !in Getenv(env, InstanceUrlVar).GetOr("")
    ensures StartingLines(None, env) == [InitialEnvLine(env)]
  {
    var url := Getenv(env, InstanceUrlVar).GetOr("");
    var p := InstanceUrlVar + "=" + url;
    assert InitialEnvLine(env) == p + "\n";
    forall k | 0 <= k < |p| ensures p[k] != '\n' {
      if k >= |InstanceUrlVar + "="| {
        assert p[k] == url[k - |InstanceUrlVar + "="|];
      }
    }
    ReadLinesCons(p, "");
    assert p + "\n" + "" == p + "\n";
  }

  // ---------------------------------------------------------------------
  // save_tokens_to_env

  const ClientIdPrefix: string := "CLIENT_ID="
  const ClientSecretPrefix: string := "CLIENT_SECRET="
  const AccessTokenPrefix: string := "ACCESS_TOKEN="

  function ClientIdLine(clientId: string): string {
    ClientIdPrefix + (clientId + "\n")
  }

  function ClientSecretLine(clientSecret: string): string {
    ClientSecretPrefix + (clientSecret + "\n")
  }

  function AccessTokenLine(accessToken: string): string {
    AccessTokenPrefix + (accessToken + "\n")
  }

  /** No line starts both as a client id and as a client secret or access
      token line, nor as a client secret and an access token line. */
  lemma PrefixesExclusive(line: string)
    ensures !(StartsWith(line, ClientIdPrefix) && StartsWith(line, ClientSecretPrefix))
    ensures !(StartsWith(line, ClientIdPrefix) && StartsWith(line, AccessTokenPrefix))
    ensures !(StartsWith(line, ClientSecretPrefix) && StartsWith(line, AccessTokenPrefix))
  {
    if StartsWith(line, ClientIdPrefix) {
      assert line[..|ClientIdPrefix|] == ClientIdPrefix;
      assert line[0] == 'C' && line[7] == 'I';
    }
    if StartsWith(line, ClientSecretPrefix) {
      assert line[..|ClientSecretPrefix|] == ClientSecretPrefix;
      assert line[0] == 'C';
    }
  }

  /** Some line of `lines` starts with `prefix`. */
  predicate HasLine(lines: seq<string>, prefix: string) {
    exists k :: 0 <= k < |lines| && StartsWith(lines[k], prefix)
  }

  /** A line the update loop rewrites. */
  predicate Handled(line: string, accessToken: Option<string>) {
    || StartsWith(line, ClientIdPrefix)
    || StartsWith(line, ClientSecretPrefix)
    || (Truthy(accessToken) && StartsWith(line, AccessTokenPrefix))
  }

  /** The lines appended for the keys no line provided, in the order client
      id, client secret, access token (the last only when a token is given). */
  function MissingLines(lines: seq<string>, clientId: string, clientSecret: string, accessToken: Option<string>): (extra: seq<string>)
    ensures |extra| <= 3
  {
    (if HasLine(lines, ClientIdPrefix) then [] else [ClientIdLine(clientId)])
    + (if HasLine(lines, ClientSecretPrefix) then [] else [ClientSecretLine(clientSecret)])
    + (if Truthy(accessToken) && !HasLine(lines, AccessTokenPrefix) then [AccessTokenLine(accessToken.value)] else [])
  }

  /** What `save_tokens_to_env` makes of the lines `before`: every client id
      line and every client secret line rewritten, every access token line
      rewritten when a token is given, every other line kept in its place,
      and the missing keys appended at the end. */
  predicate TokensSaved(before: seq<string>, after: seq<string>,
                        clientId: string, clientSecret: string, accessToken: Option<string>)
  {
    && |after| == |before| + |MissingLines(before, clientId, clientSecret, accessToken)|
    && (forall k :: 0 <= k < |before| && StartsWith(before[k], ClientIdPrefix) ==>
          after[k] == ClientIdLine(clientId))
    && (forall k :: 0 <= k < |before| && StartsWith(before[k], ClientSecretPrefix) ==>
          after[k] == ClientSecretLine(clientSecret))
    && (forall k :: 0 <= k < |before| && Truthy(accessToken) && StartsWith(before[k], AccessTokenPrefix) ==>
          after[k] == AccessTokenLine(accessToken.value))
    && (forall k :: 0 <= k < |before| && !Handled(before[k], accessToken) ==> after[k] == before[k])
    && after[|before|..] == MissingLines(before, clientId, clientSecret, accessToken)
  }

  /** One step of the update loop: the line a read line is replaced by. */
  function RewriteLine(line: string, clientId: string, clientSecret: string, accessToken: Option<string>): (r: string)
    ensures StartsWith(r, ClientIdPrefix) <==> StartsWith(line, ClientIdPrefix)
    ensures StartsWith(r, ClientSecretPrefix) <==> StartsWith(line, ClientSecretPrefix)
    ensures StartsWith(r, AccessTokenPrefix) <==> StartsWith(line, AccessTokenPrefix)
    ensures !Handled(line, accessToken) ==> r == line
  {
    TokenLinesStart(clientId, clientSecret, accessToken.GetOr(""));
    PrefixesExclusive(line);
    PrefixesExclusive(ClientIdLine(clientId));
    PrefixesExclusive(ClientSecretLine(clientSecret));
    PrefixesExclusive(AccessTokenLine(accessToken.GetOr("")));
    if StartsWith(line, ClientIdPrefix) then ClientIdLine(clientId)
    else if StartsWith(line, ClientSecretPrefix) then ClientSecretLine(clientSecret)
    else if Truthy(accessToken) && StartsWith(line, AccessTokenPrefix) then AccessTokenLine(accessToken.value)
    else line
  }

  /** Rewriting every line and appending the missing keys is a save. */
  lemma RewrittenLinesSaved(lines: seq<string>, written: seq<string>,
                           clientId: string, clientSecret: string, accessToken: Option<string>)
    requires |written| == |lines| + |MissingLines(lines, clientId, clientSecret, accessToken)|
    requires forall k :: 0 <= k < |lines| ==> written[k] == RewriteLine(lines[k], clientId, clientSecret, accessToken)
    requires written[|lines|..] == MissingLines(lines, clientId, clientSecret, accessToken)
    ensures TokensSaved(lines, written, clientId, clientSecret, accessToken)
  {
    forall k | 0 <= k < |lines| {
      PrefixesExclusive(lines[k]);
    }
  }

  /** The update loop of `save_tokens_to_env` on the lines read from the
      file; the result is what is written back. */
  method UpdateEnvLines(lines: seq<string>, clientId: string, clientSecret: string, accessToken: Option<string>)
    returns (written: seq<string>)
    ensures TokensSaved(lines, written, clientId, clientSecret, accessToken)
  {
    written := lines;
    var updatedClientId, updatedClientSecret, updatedAccessToken := false, false, false;
    for i := 0 to |written|
      invariant |written| == |lines|
      invariant forall k :: i <= k < |lines| ==> written[k] == lines[k]
      invariant forall k :: 0 <= k < i ==> written[k] == RewriteLine(lines[k], clientId, clientSecret, accessToken)
      invariant updatedClientId <==> HasLine(lines[..i], ClientIdPrefix)
      invariant updatedClientSecret <==> HasLine(lines[..i], ClientSecretPrefix)
      invariant updatedAccessToken <==> Truthy(accessToken) && HasLine(lines[..i], AccessTokenPrefix)
    {
      assert lines[..i + 1] == lines[..i] + [lines[i]];
      HasLineSnoc(lines[..i], lines[i], ClientIdPrefix);
      HasLineSnoc(lines[..i], lines[i], ClientSecretPrefix);
      HasLineSnoc(lines[..i], lines[i], AccessTokenPrefix);
      PrefixesExclusive(lines[i]);
      ghost var before := written;
      if StartsWith(written[i], ClientIdPrefix) {
        written := written[i := ClientIdLine(clientId)];
        updatedClientId := true;
      } else if StartsWith(written[i], ClientSecretPrefix) {
        written := written[i := ClientSecretLine(clientSecret)];
        updatedClientSecret := true;
      } else if Truthy(accessToken) && StartsWith(written[i], AccessTokenPrefix) {
        written := written[i := AccessTokenLine(accessToken.value)];
        updatedAccessToken := true;
      }
      assert written == before[i := RewriteLine(lines[i], clientId, clientSecret, accessToken)];
    }
    assert lines[..|lines|] == lines;
    ghost var updated := written;
    if !updatedClientId {
      written := written + [ClientIdLine(clientId)];
    }
    if !updatedClientSecret {
      written := written + [ClientSecretLine(clientSecret)];
    }
    if Truthy(accessToken) && !updatedAccessToken {
      written := written + [AccessTokenLine(accessToken.value)];
    }
    assert written == updated + MissingLines(lines, clientId, clientSecret, accessToken);
    assert written[|lines|..] == MissingLines(lines, clientId, clientSecret, accessToken);
    RewrittenLinesSaved(lines, written, clientId, clientSecret, accessToken);
  }

  lemma HasLineSnoc(lines: seq<string>, line: string, prefix: string)
    ensures HasLine(lines + [line], prefix) <==> HasLine(lines, prefix) || StartsWith(line, prefix)
  {
    var all := lines + [line];
    if StartsWith(line, prefix) {
      assert StartsWith(all[|lines|], prefix);
    }
    if HasLine(lines, prefix) {
      var k :| 0 <= k < |lines| && StartsWith(lines[k], prefix);
      assert all[k] == lines[k];
    }
  }

  lemma TokenLinesStart(clientId: string, clientSecret: string, accessToken: string)
    ensures StartsWith(ClientIdLine(clientId), ClientIdPrefix)
    ensures StartsWith(ClientSecretLine(clientSecret), ClientSecretPrefix)
    ensures StartsWith(AccessTokenLine(accessToken), AccessTokenPrefix)
  {
    StartsWithConcat(ClientIdPrefix, clientId + "\n");
    StartsWithConcat(ClientSecretPrefix, clientSecret + "\n");
    StartsWithConcat(AccessTokenPrefix, accessToken + "\n");
  }

  /** Every line of `lines` that begins like a saved key is that key's line
      with the given value. */
  predicate Normalized(lines: seq<string>, clientId: string, clientSecret: string, accessToken: Option<string>) {
    forall k :: 0 <= k < |lines| ==>
      && (StartsWith(lines[k], ClientIdPrefix) ==> lines[k] == ClientIdLine(clientId))
      && (StartsWith(lines[k], ClientSecretPrefix) ==> lines[k] == ClientSecretLine(clientSecret))
      && (Truthy(accessToken) && StartsWith(lines[k], AccessTokenPrefix) ==> lines[k] == AccessTokenLine(accessToken.value))
  }

  /** After a save the file holds a client id line, a client secret line and,
      when a token was given, an access token line, and every such line
      carries the saved value. */
  lemma SavedLinesPresent(before: seq<string>, after: seq<string>,
                          clientId: string, clientSecret: string, accessToken: Option<string>)
    requires TokensSaved(before, after, clientId, clientSecret, accessToken)
    ensures MissingLines(after, clientId, clientSecret, accessToken) == []
    ensures Normalized(after, clientId, clientSecret, accessToken)
  {
    var extra := MissingLines(before, clientId, clientSecret, accessToken);
    TokenLinesStart(clientId, clientSecret, if accessToken.Some? then accessToken.value else "");
    forall k | 0 <= k < |after|
      ensures StartsWith(after[k], ClientIdPrefix) ==> after[k] == ClientIdLine(clientId)
      ensures StartsWith(after[k], ClientSecretPrefix) ==> after[k] == ClientSecretLine(clientSecret)
      ensures Truthy(accessToken) && StartsWith(after[k], AccessTokenPrefix) ==> after[k] == AccessTokenLine(accessToken.value)
    {
      PrefixesExclusive(after[k]);
      if k < |before| {
        PrefixesExclusive(before[k]);
      } else {
        assert after[k] == extra[k - |before|];
      }
    }
    if !HasLine(before, ClientIdPrefix) {
      assert after[|before|] == extra[0];
    } else {
      var k :| 0 <= k < |before| && StartsWith(before[k], ClientIdPrefix);
      assert StartsWith(after[k], ClientIdPrefix);
    }
    if !HasLine(before, ClientSecretPrefix) {
      var at := |before| + (if HasLine(before, ClientIdPrefix) then 0 else 1);
      assert after[at] == extra[at - |before|];
      assert StartsWith(after[at], ClientSecretPrefix);
    } else {
      var k :| 0 <= k < |before| && StartsWith(before[k], ClientSecretPrefix);
      PrefixesExclusive(before[k]);
      assert StartsWith(after[k], ClientSecretPrefix);
    }
    if Truthy(accessToken) {
      if !HasLine(before, AccessTokenPrefix) {
        assert after[|after| - 1] == extra[|extra| - 1];
        assert StartsWith(after[|after| - 1], AccessTokenPrefix);
      } else {
        var k :| 0 <= k < |before| && StartsWith(before[k], AccessTokenPrefix);
        PrefixesExclusive(before[k]);
        assert StartsWith(after[k], AccessTokenPrefix);
      }
    }
  }

  /** Saving the same tokens a second time writes back exactly what the first
      save wrote. */
  lemma SaveTokensIdempotent(before: seq<string>, after: seq<string>, again: seq<string>,
                             clientId: string, clientSecret: string, accessToken: Option<string>)
    requires TokensSaved(before, after, clientId, clientSecret, accessToken)
    requires TokensSaved(after, again, clientId, clientSecret, accessToken)
    ensures again == after
  {
    SavedLinesPresent(before, after, clientId, clientSecret, accessToken);
    forall k | 0 <= k < |after| ensures again[k] == after[k] {
      if !Handled(after[k], accessToken) {
      } else {
        PrefixesExclusive(after[k]);
      }
    }
  }

  /** `TokensSaved` determines the written lines completely. */
  lemma TokensSavedUnique(before: seq<string>, after1: seq<string>, after2: seq<string>,
                          clientId: string, clientSecret: string, accessToken: Option<string>)
    requires TokensSaved(before, after1, clientId, clientSecret, accessToken)
    requires TokensSaved(before, after2, clientId, clientSecret, accessToken)
    ensures after1 == after2
  {
    var extra := MissingLines(before, clientId, clientSecret, accessToken);
    forall k | 0 <= k < |after1| ensures after1[k] == after2[k] {
      if k < |before| {
        PrefixesExclusive(before[k]);
      } else {
        assert after1[k] == extra[k - |before|] == after2[k];
      }
    }
  }

  /** `save_tokens_to_env(client_id, client_secret, access_token)`: reads the
      `.env` file (`existing` is its text, None when it does not exist),
      updates its lines and returns the lines written back. */
  method SaveTokensToEnv(existing: Option<string>, env: Env,
                         clientId: string, clientSecret: string, accessToken: Option<string>)
    returns (written: seq<string>)
    ensures TokensSaved(StartingLines(existing, env), written, clientId, clientSecret, accessToken)
  {
    var content := if existing.Some? then existing.value else InitialEnvLine(env);
    var lines := ReadLines(content);
    written := UpdateEnvLines(lines, clientId, clientSecret, accessToken);
  }

  /** A text without newline is read as one line, unterminated. */
  lemma ReadLinesUnterminated(p: string)
    requires p != "" && '\n' !in p
    ensures ReadLines(p) == [p]
  {
  }

  /** As written, `save_tokens_to_env` appends after a last line that lacks
      its newline: on a `.env` holding only `MASTODON_INSTANCE_URL=<url>`
      with no final newline, the client id line is glued onto the URL line,
      so reading the file back yields the instance URL with `CLIENT_ID=...`
      attached and no client id line at all. */
  lemma UnterminatedLastLineMerges(p: string, env: Env, clientId: string, clientSecret: string,
                                   written: seq<string>)
    requires StartsWith(p, InstanceUrlVar + "=") && '\n' !in p
    requires '\n' !in clientId && '\n' !in clientSecret
    requires TokensSaved(StartingLines(Some(p), env), written, clientId, clientSecret, None)
    ensures ReadLines(JoinLines(written)) == [p + ClientIdLine(clientId), ClientSecretLine(clientSecret)]
    ensures !HasLine(ReadLines(JoinLines(written)), ClientIdPrefix)
  {
    UnterminatedSaveWrites(p, env, clientId, clientSecret, written);
    UnterminatedReread(p, clientId, clientSecret);
    MergedLinesLackClientId(p, clientId, clientSecret);
  }

  lemma MergedLinesLackClientId(p: string, clientId: string, clientSecret: string)
    requires StartsWith(p, InstanceUrlVar + "=")
    ensures !HasLine([p + ClientIdLine(clientId), ClientSecretLine(clientSecret)], ClientIdPrefix)
  {
    var urlPrefix := InstanceUrlVar + "=";
    assert urlPrefix[0] == 'M';
    assert p[0] == p[..|urlPrefix|][0];
    PrefixesDiffer(p, ClientIdLine(clientId), ClientIdPrefix, 0);
    assert ClientSecretPrefix[7] == 'S' && ClientIdPrefix[7] == 'I';
    PrefixesDiffer(ClientSecretPrefix, clientSecret + "\n", ClientIdPrefix, 7);
  }

  lemma UnterminatedSaveWrites(p: string, env: Env, clientId: string, clientSecret: string,
                               written: seq<string>)
    requires StartsWith(p, InstanceUrlVar + "=") && '\n' !in p
    requires TokensSaved(StartingLines(Some(p), env), written, clientId, clientSecret, None)
    ensures written == [p, ClientIdLine(clientId), ClientSecretLine(clientSecret)]
  {
    ReadLinesUnterminated(p);
    var urlPrefix := InstanceUrlVar + "=";
    assert urlPrefix[0] == 'M';
    assert p[0] == p[..|urlPrefix|][0];
    assert !StartsWith(p, ClientIdPrefix) && !StartsWith(p, ClientSecretPrefix);
    assert !HasLine([p], ClientIdPrefix) && !HasLine([p], ClientSecretPrefix);
  }

  lemma UnterminatedReread(p: string, clientId: string, clientSecret: string)
    requires '\n' !in p && '\n' !in clientId && '\n' !in clientSecret
    ensures ReadLines(JoinLines([p, ClientIdLine(clientId), ClientSecretLine(clientSecret)]))
            == [p + ClientIdLine(clientId), ClientSecretLine(clientSecret)]
  {
    var a := ClientIdPrefix + clientId;
    var b := ClientSecretPrefix + clientSecret;
    assert ClientIdLine(clientId) == a + "\n";
    assert ClientSecretLine(clientSecret) == b + "\n";
    ReadThreeJoined(p, a, b);
  }

  /** Three lines of which the first lacks its newline are read back as two. */
  lemma ReadThreeJoined(p: string, a: string, b: string)
    requires '\n' !in p && '\n' !in a && '\n' !in b
    ensures ReadLines(JoinLines([p, a + "\n", b + "\n"])) == [p + (a + "\n"), b + "\n"]
  {
    var written := [p, a + "\n", b + "\n"];
    assert written[1..] == [a + "\n", b + "\n"] && written[1..][1..] == [b + "\n"];
    assert JoinLines([b + "\n"]) == b + "\n" + "";
    assert JoinLines(written) == (p + a) + "\n" + (b + "\n");
    ReadLinesCons(p + a, b + "\n");
    ReadLinesCons(b, "");
    assert b + "\n" + "" == b + "\n";
    assert p + (a + "\n") == (p + a) + "\n";
  }

  /** The lines read from a file, with the last one given its newline when it
      lacks one. */
  function Terminated(lines: seq<string>): (r: seq<string>)
    ensures |r| == |lines|
    ensures lines != [] ==> r[..|lines| - 1] == lines[..|lines| - 1]
    ensures JoinLines(r) == JoinLines(lines) + (if r == lines then "" else "\n")
    ensures (forall i :: 0 <= i < |lines| - 1 ==> IsLine(lines[i])) &&
            (lines != [] ==> IsLine(lines[|lines| - 1]) || '\n' !in lines[|lines| - 1])
            ==> forall i :: 0 <= i < |r| ==> IsLine(r[i])
  {
    if lines == [] then []
    else
      var n := |lines| - 1;
      var last := lines[n];
      if last != "" && last[|last| - 1] == '\n' then lines
      else
        var r := lines[..n] + [last + "\n"];
        assert (last + "\n")[..|last|] == last;
        JoinLinesSnoc(lines[..n], last);
        JoinLinesSnoc(lines[..n], last + "\n");
        assert lines == lines[..n] + [last];
        r
  }

  lemma {:induction false} JoinLinesSnoc(lines: seq<string>, line: string)
    ensures JoinLines(lines + [line]) == JoinLines(lines) + line
  {
    if lines != [] {
      assert (lines + [line])[1..] == lines[1..] + [line];
      JoinLinesSnoc(lines[1..], line);
    }
  }

  /** A save whose starting lines are all terminated, with values free of
      newlines, writes only terminated lines. */
  lemma SavedLinesAreLines(before: seq<string>, after: seq<string>,
                           clientId: string, clientSecret: string, accessToken: Option<string>)
    requires TokensSaved(before, after, clientId, clientSecret, accessToken)
    requires forall i :: 0 <= i < |before| ==> IsLine(before[i])
    requires '\n' !in clientId && '\n' !in clientSecret
    requires accessToken.Some? ==> '\n' !in accessToken.value
    ensures forall i :: 0 <= i < |after| ==> IsLine(after[i])
  {
    var token := if accessToken.Some? then accessToken.value else "";
    KeyLinesAreLines(ClientIdPrefix, clientId);
    KeyLinesAreLines(ClientSecretPrefix, clientSecret);
    KeyLinesAreLines(AccessTokenPrefix, token);
    var extra := MissingLines(before, clientId, clientSecret, accessToken);
    forall i | 0 <= i < |after| ensures IsLine(after[i]) {
      if i < |before| {
        PrefixesExclusive(before[i]);
      } else {
        assert after[i] == extra[i - |before|];
      }
    }
  }

  lemma KeyLinesAreLines(prefix: string, value: string)
    requires '\n' !in prefix && '\n' !in value
    ensures IsLine(prefix + (value + "\n"))
  {
    var l := prefix + (value + "\n");
    assert l[..|l| - 1] == prefix + value;
  }

  /** `save_tokens_to_env` with the last line given its newline before keys
      are appended: the file it writes reads back as exactly the lines it
      wrote, so every saved key is found on the next read. */
  method SaveTokensToEnvTerminated(existing: Option<string>, env: Env,
                                   clientId: string, clientSecret: string, accessToken: Option<string>)
    returns (written: seq<string>)
    ensures TokensSaved(Terminated(StartingLines(existing, env)), written, clientId, clientSecret, accessToken)
    ensures '\n' !in clientId && '\n' !in clientSecret && (accessToken.Some? ==> '\n' !in accessToken.value)
            ==> ReadLines(JoinLines(written)) == written
  {
    var content := if existing.Some? then existing.value else InitialEnvLine(env);
    var lines := Terminated(ReadLines(content));
    written := UpdateEnvLines(lines, clientId, clientSecret, accessToken);
    if '\n' !in clientId && '\n' !in clientSecret && (accessToken.Some? ==> '\n' !in accessToken.value) {
      SavedLinesAreLines(lines, written, clientId, clientSecret, accessToken);
      ReadLinesJoinLines(written);
    }
  }
}
