// The command line of a Git connection over SSH.
module SshCommand {
  import opened Options
  import opened Texts

  datatype Operation = UploadPack | ReceivePack

  datatype Command = Command(operation: Operation, owner: string, slug: string)

  datatype Error = Unsupported | Unquoted | BadCharacter | BadPath | NotGit | BadSlug

  function Prefix(o: Operation): string {
    match o
    case UploadPack => "git-upload-pack '"
    case ReceivePack => "git-receive-pack '"
  }

  predicate HasPrefix(s: string, prefix: string) { |prefix| <= |s| && s[..|prefix|] == prefix }
  predicate HasSuffix(s: string, suffix: string) { |suffix| <= |s| && s[|s| - |suffix|..] == suffix }
  function TrimPrefix(s: string, prefix: string): string { if HasPrefix(s, prefix) then s[|prefix|..] else s }
  function TrimSuffix(s: string, suffix: string): string { if HasSuffix(s, suffix) then s[..|s| - |suffix|] else s }

  predicate Forbidden(c: char) { c in "'\\\0\r\n\t" }

  predicate SlugChar(c: char) { 'a' <= c <= 'z' || '0' <= c <= '9' || c in "._-" }

  predicate ValidSlug(slug: string) {
    && slug != "" && slug != "." && slug != ".." && (forall c | c in slug :: SlugChar(c))
    && ('a' <= slug[0] <= 'z' || '0' <= slug[0] <= '9')
  }

  // --- Commands, and the two ways to write them -----------------------------------------

  // The pattern of repository slugs.
  predicate RepositorySlug(slug: string) {
    && slug != "" && ('a' <= slug[0] <= 'z' || '0' <= slug[0] <= '9')
    && forall c | c in slug :: 'a' <= c <= 'z' || '0' <= c <= '9' || c == '.' || c == '_' || c == '-'
  }

  // An owner is one segment of a path, without what a shell or a line could not hold.
  predicate ValidOwner(owner: string) {
    owner !in ["", ".", ".."] && '/' !in owner && '\'' !in owner && '\\' !in owner && '\0' !in owner
    && '\r' !in owner && '\n' !in owner && '\t' !in owner
  }

  predicate ValidCommand(c: Command) { ValidOwner(c.owner) && RepositorySlug(c.slug) }

  function Path(c: Command): string { c.owner + "/" + (c.slug + ".git") }

  function Render(c: Command, slash: bool): string {
    (if c.operation == UploadPack then "git-upload-pack '" else "git-receive-pack '") + (if slash then "/" else "") + Path(c) + "'"
  }

  // --- The parser ------------------------------------------------------------------------

  function ParsePath(operation: Operation, path: string): Result<Command, Error> {
    if exists c | c in path :: Forbidden(c) then Err(BadCharacter)
    else
      var parts := Split(path, '/');
      if |parts| != 2 || parts[0] == "" || parts[0] == "." || parts[0] == ".." then Err(BadPath)
      else if !HasSuffix(parts[1], ".git") then Err(NotGit)
      else
        var slug := TrimSuffix(parts[1], ".git");
        if !ValidSlug(slug) then Err(BadSlug) else Ok(Command(operation, parts[0], slug))
  }

  function ParseQuoted(operation: Operation, value: string): Result<Command, Error> {
    if !HasSuffix(value, "'") then Err(Unquoted)
    else ParsePath(operation, TrimPrefix(TrimSuffix(value, "'"), "/"))
  }

  function Parse(value: string): Result<Command, Error> {
    if HasPrefix(value, Prefix(UploadPack)) then ParseQuoted(UploadPack, TrimPrefix(value, Prefix(UploadPack)))
    else if HasPrefix(value, Prefix(ReceivePack)) then ParseQuoted(ReceivePack, TrimPrefix(value, Prefix(ReceivePack)))
    else Err(Unsupported)
  }

  lemma SlugIff(slug: string)
    ensures ValidSlug(slug) <==> RepositorySlug(slug)
  {
  }

  lemma OwnerCharacter(owner: string, c: char)
    requires ValidOwner(owner) && c in owner
    ensures c != '/' && !Forbidden(c)
  {
  }

  // --- Every rendering is accepted ---------------------------------------------------

  lemma PathIsAllowed(c: Command)
    requires ValidCommand(c)
    ensures forall x | x in Path(c) :: !Forbidden(x)
  {
    forall x | x in Path(c) ensures !Forbidden(x) {
      if x in c.owner {
        OwnerCharacter(c.owner, x);
      } else {
        assert x == '/' || x in c.slug || x in ".git";
      }
    }
  }

  lemma PathSplits(c: Command)
    requires ValidCommand(c)
    ensures Split(Path(c), '/') == [c.owner, c.slug + ".git"]
  {
    var file := c.slug + ".git";
    assert Path(c) == c.owner + ['/'] + file;
    assert '/' !in c.slug && '/' !in file;
    SplitAtFirst(c.owner, file, '/');
    SplitNothing(file, '/');
  }

  lemma PathIsParsed(c: Command)
    requires ValidCommand(c)
    ensures ParsePath(c.operation, Path(c)) == Ok(c)
  {
    var file := c.slug + ".git";
    PathIsAllowed(c);
    PathSplits(c);
    SlugIff(c.slug);
    assert file[|file| - 4..] == ".git" && file[..|file| - 4] == c.slug;
  }

  lemma PrefixesDiffer()
    ensures |Prefix(UploadPack)| == |Prefix(ReceivePack)| - 1
    ensures Prefix(UploadPack)[4] != Prefix(ReceivePack)[4]
  {
  }

  lemma PrefixIsFound(o: Operation, rest: string)
    ensures Parse(Prefix(o) + rest) == ParseQuoted(o, rest)
  {
    PrefixesDiffer();
    var value := Prefix(o) + rest;
    assert value[..|Prefix(o)|] == Prefix(o) && value[|Prefix(o)|..] == rest;
    assert value[4] == Prefix(o)[4];
    HasPrefixAt(value, Prefix(UploadPack), 4);
  }

  lemma HasPrefixAt(s: string, prefix: string, n: nat)
    requires n < |prefix|
    ensures HasPrefix(s, prefix) ==> n < |s| && s[n] == prefix[n]
  {
    if HasPrefix(s, prefix) {
      assert s[..|prefix|][n] == prefix[n];
    }
  }

  lemma QuotedIsParsed(c: Command, slash: bool)
    requires ValidCommand(c)
    ensures ParseQuoted(c.operation, (if slash then "/" else "") + Path(c) + "'") == Ok(c)
  {
    var inner := (if slash then "/" else "") + Path(c);
    var quoted := inner + "'";
    assert quoted[|quoted| - 1..] == "'" && quoted[..|quoted| - 1] == inner;
    assert Path(c)[0] == c.owner[0] && c.owner[0] in c.owner;
    if slash {
      assert inner[..1] == "/" && inner[1..] == Path(c);
    } else {
      assert inner == Path(c) && inner[..1][0] != '/';
    }
    PathIsParsed(c);
  }

  lemma RenderIsParsed(c: Command, slash: bool)
    requires ValidCommand(c)
    ensures Parse(Render(c, slash)) == Ok(c)
  {
    var rest := (if slash then "/" else "") + Path(c) + "'";
    assert Render(c, slash) == Prefix(c.operation) + rest;
    PrefixIsFound(c.operation, rest);
    QuotedIsParsed(c, slash);
  }

  // --- Nothing else is accepted --------------------------------------------------------

  lemma {:induction false} SplitJoins(s: string, c: char)
    ensures |Split(s, c)| == 2 ==> s == Split(s, c)[0] + [c] + Split(s, c)[1]
    ensures |Split(s, c)| == 1 ==> s == Split(s, c)[0]
    ensures forall p | p in Split(s, c) :: c !in p
  {
    if s != "" {
      SplitJoins(s[1..], c);
      var rest := Split(s[1..], c);
      assert s == [s[0]] + s[1..];
      if s[0] == c {
        assert Split(s, c) == [""] + rest;
      } else {
        assert Split(s, c) == [[s[0]] + rest[0]] + rest[1..];
        assert rest[0] in rest;
        forall p | p in Split(s, c) ensures c !in p {
          assert p == [s[0]] + rest[0] || p in rest;
        }
      }
    }
  }

  lemma ParsedPathIsPath(o: Operation, path: string, c: Command)
    requires ParsePath(o, path) == Ok(c)
    ensures path == Path(c) && ValidCommand(c) && c.operation == o
  {
    SplitJoins(path, '/');
    SlugIff(c.slug);
    var parts := Split(path, '/');
    assert parts[1] == c.slug + ".git";
    assert parts[0] in parts;
    forall x | x in c.owner ensures x != '/' && !Forbidden(x) {
      assert x in path;
    }
  }

  lemma ParsedQuotedIsRendered(o: Operation, value: string, c: Command)
    requires ParseQuoted(o, value) == Ok(c)
    ensures value == "/" + Path(c) + "'" || value == Path(c) + "'"
    ensures ValidCommand(c) && c.operation == o
  {
    var inner := TrimSuffix(value, "'");
    assert value == inner + "'";
    ParsedPathIsPath(o, TrimPrefix(inner, "/"), c);
    if HasPrefix(inner, "/") {
      assert inner == "/" + inner[1..];
    }
  }

  lemma ParsedHasPrefix(value: string, c: Command) returns (rest: string)
    requires Parse(value) == Ok(c)
    ensures value == Prefix(c.operation) + rest && ParseQuoted(c.operation, rest) == Ok(c)
  {
    var o := if HasPrefix(value, Prefix(UploadPack)) then UploadPack else ReceivePack;
    rest := TrimPrefix(value, Prefix(o));
    assert value == Prefix(o) + rest;
    ParsedQuotedIsRendered(o, rest, c);
  }

  lemma RenderIs(c: Command)
    ensures Render(c, true) == Prefix(c.operation) + ("/" + Path(c) + "'")
    ensures Render(c, false) == Prefix(c.operation) + (Path(c) + "'")
  {
    Associate(Prefix(c.operation), "/", Path(c), "'");
    Associate(Prefix(c.operation), "", Path(c), "'");
    assert "" + Path(c) + "'" == Path(c) + "'";
  }

  lemma Associate(a: string, b: string, c: string, d: string)
    ensures a + b + c + d == a + (b + c + d)
  {
  }

  // Exactly the two renderings of a valid command are accepted.
  lemma ParseIff(value: string, c: Command)
    ensures Parse(value) == Ok(c) <==> ValidCommand(c) && (value == Render(c, true) || value == Render(c, false))
  {
    if ValidCommand(c) {
      RenderIsParsed(c, true);
      RenderIsParsed(c, false);
    }
    if Parse(value) == Ok(c) {
      ParsedIsRendered(value, c);
    }
  }

  lemma ParsedIsRendered(value: string, c: Command)
    requires Parse(value) == Ok(c)
    ensures ValidCommand(c) && (value == Render(c, true) || value == Render(c, false))
  {
    var rest := ParsedHasPrefix(value, c);
    ParsedQuotedIsRendered(c.operation, rest, c);
    RenderIs(c);
  }

  // --- The published path -----------------------------------------------------------------

  // The path that Endpoints.For prints, which a client sends back quoted.
  function EndpointPath(owner: string, slug: string): string { "/" + owner + "/" + slug + ".git" }

  lemma EndpointParsesBack(o: Operation, owner: string, slug: string)
    requires ValidOwner(owner) && RepositorySlug(slug)
    ensures Parse(Prefix(o) + EndpointPath(owner, slug) + "'") == Ok(Command(o, owner, slug))
  {
    var c := Command(o, owner, slug);
    RenderIsParsed(c, true);
    EndpointIsPath(c);
  }

  lemma EndpointIsPath(c: Command)
    ensures Prefix(c.operation) + EndpointPath(c.owner, c.slug) + "'" == Render(c, true)
  {
    assert EndpointPath(c.owner, c.slug) == "/" + Path(c);
    var p, path := Prefix(c.operation), Path(c);
    assert p + ("/" + path) == p + "/" + path;
  }
}
