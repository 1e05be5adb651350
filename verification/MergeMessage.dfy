// How a merge commit names its pull request, and how a later attempt finds that
// name again in the stored commit.
module MergeMessage {
  import opened Options
  import opened Texts

  datatype Strategy = MergeCommit | Squash

  // The fields of a pull request projection that a merge commit records.
  datatype Target = Target(uri: string, cid: string, head: string, title: string, body: string)

  function StrategyText(s: Strategy): string {
    match s
    case MergeCommit => "merge-commit"
    case Squash => "squash"
  }

  const URI_LABEL := "Adenosine-Pull-Request: "
  const CID_LABEL := "Adenosine-Pull-Request-CID: "
  const HEAD_LABEL := "Adenosine-Pull-Request-Head: "
  const STRATEGY_LABEL := "Adenosine-Merge-Strategy: "

  function Trailers(t: Target, s: Strategy): string {
    URI_LABEL + t.uri + "\n" + CID_LABEL + t.cid + "\n" + HEAD_LABEL + t.head + "\n" + STRATEGY_LABEL + StrategyText(s)
  }

  function Message(t: Target, trailers: string): string {
    (if t.body != "" then t.title + "\n\n" + t.body else t.title) + "\n\n" + trailers + "\n"
  }

  // --- strings.TrimSpace and strings.HasSuffix ----------------------------------

  predicate IsSpace(c: char) {
    c in {'\t', '\n', '\U{000B}', '\U{000C}', '\r', ' ', '\U{0085}', '\U{00A0}', '\U{1680}', '\U{2028}', '\U{2029}', '\U{202F}',
          '\U{205F}', '\U{3000}'}
    || '\U{2000}' <= c <= '\U{200A}'
  }

  function TrimLeft(s: string): string {
    if s != "" && IsSpace(s[0]) then TrimLeft(s[1..]) else s
  }

  function TrimRight(s: string): string {
    if s != "" && IsSpace(s[|s| - 1]) then TrimRight(s[..|s| - 1]) else s
  }

  function TrimSpace(s: string): string { TrimRight(TrimLeft(s)) }

  predicate HasSuffix(s: string, suffix: string) { |suffix| <= |s| && s[|s| - |suffix|..] == suffix }

  predicate Solid(s: string) { s != "" && !IsSpace(s[0]) && !IsSpace(s[|s| - 1]) }

  // Trimming stops at text that neither starts nor ends with a space.
  lemma {:induction false} TrimLeftStopsAtSuffix(x: string, t: string, w: string)
    requires Solid(t)
    ensures exists y :: TrimLeft(x + t + w) == y + t + w
  {
    if x == "" {
      assert x + t + w == t + w;
      assert TrimLeft(x + t + w) == "" + t + w;
    } else if IsSpace(x[0]) {
      assert (x + t + w)[1..] == x[1..] + t + w;
      TrimLeftStopsAtSuffix(x[1..], t, w);
    } else {
      assert TrimLeft(x + t + w) == x + t + w;
    }
  }

  lemma {:induction false} TrimRightDropsSpace(x: string, t: string, w: string)
    requires Solid(t) && forall c | c in w :: IsSpace(c)
    ensures TrimRight(x + t + w) == x + t
  {
    if w == "" {
      assert x + t + w == x + t;
    } else {
      var all := x + t + w;
      assert all[..|all| - 1] == x + t + w[..|w| - 1];
      TrimRightDropsSpace(x, t, w[..|w| - 1]);
    }
  }

  // --- The stored commit ---------------------------------------------------------

  // git cat-file commit: the header lines, an empty line, the message.
  function Stored(header: string, message: string): string { header + "\n\n" + message }

  // bytes.Index(raw, "\n\n")
  function IndexOfBlankLine(raw: string): Option<nat> {
    if |raw| < 2 then None
    else if raw[..2] == "\n\n" then Some(0)
    else match IndexOfBlankLine(raw[1..])
      case None => None
      case Some(n) => Some(n + 1)
  }

  // The message that readCommit returns.
  function ReadMessage(raw: string): Option<string>
  {
    match IndexOfBlankLine(raw)
    case None => None
    case Some(n) => if n + 2 <= |raw| then Some(raw[n + 2..]) else None
  }

  // A header is not empty, has no empty line and does not end its last line.
  predicate IsHeader(header: string) {
    header != "" && header[|header| - 1] != '\n' && IndexOfBlankLine(header) == None
  }

  lemma {:induction false} BlankLineAfterHeader(header: string, rest: string)
    requires header != "" ==> header[|header| - 1] != '\n'
    requires IndexOfBlankLine(header) == None
    ensures IndexOfBlankLine(header + "\n\n" + rest) == Some(|header|)
  {
    var raw := header + "\n\n" + rest;
    if header == "" {
      assert raw[..2] == "\n\n";
    } else {
      assert raw[1..] == header[1..] + "\n\n" + rest;
      assert raw[0] == header[0];
      if |header| == 1 {
        assert header[1..] == "";
        assert raw[..2] != "\n\n" by { assert raw[..2][0] != '\n'; }
      } else {
        assert raw[..2] == header[..2];
      }
      BlankLineAfterHeader(header[1..], rest);
    }
  }

  // The message comes back exactly as it was written, empty lines and all.
  lemma MessageRoundTrip(header: string, message: string)
    requires IsHeader(header)
    ensures ReadMessage(Stored(header, message)) == Some(message)
  {
    BlankLineAfterHeader(header, message);
    assert Stored(header, message)[|header| + 2..] == message;
  }

  // --- Recognition ---------------------------------------------------------------

  predicate HasTrailers(message: string, trailers: string) { HasSuffix(TrimSpace(message), trailers) }

  lemma TrailersAreSolid(t: Target, s: Strategy)
    ensures Solid(Trailers(t, s))
  {
    var all := Trailers(t, s);
    assert all[0] == URI_LABEL[0] == 'A';
    assert all[|all| - 1] == StrategyText(s)[|StrategyText(s)| - 1];
  }

  // The message of a merge, for any title and body, is recognised.
  lemma OwnMessageIsRecognised(t: Target, s: Strategy)
    ensures HasTrailers(Message(t, Trailers(t, s)), Trailers(t, s))
  {
    var trailers := Trailers(t, s);
    TrailersAreSolid(t, s);
    var lead := (if t.body != "" then t.title + "\n\n" + t.body else t.title) + "\n\n";
    assert Message(t, trailers) == lead + trailers + "\n";
    TrimLeftStopsAtSuffix(lead, trailers, "\n");
    var y :| TrimLeft(lead + trailers + "\n") == y + trailers + "\n";
    TrimRightDropsSpace(y, trailers, "\n");
    assert (y + trailers)[|y|..] == trailers;
  }

  // Also after the round trip through the object database.
  lemma StoredMessageIsRecognised(header: string, t: Target, s: Strategy)
    requires IsHeader(header)
    ensures
      var read := ReadMessage(Stored(header, Message(t, Trailers(t, s))));
      read.Some? && HasTrailers(read.value, Trailers(t, s))
  {
    MessageRoundTrip(header, Message(t, Trailers(t, s)));
    OwnMessageIsRecognised(t, s);
  }

  // --- What the message says -----------------------------------------------------

  // The text before the trailers, which an empty line precedes and a newline ends.
  function Lead(message: string, trailers: string): string {
    if |message| < |trailers| + 3 then "" else message[..|message| - |trailers| - 3]
  }

  // The title ends at the first empty line, and what follows is the body.
  function TitleIn(lead: string): string {
    match IndexOfBlankLine(lead)
    case None => lead
    case Some(n) => if n <= |lead| then lead[..n] else lead
  }

  function BodyIn(lead: string): string {
    match IndexOfBlankLine(lead)
    case None => ""
    case Some(n) => if n + 2 <= |lead| then lead[n + 2..] else ""
  }

  lemma {:induction false} LineHasNoBlankLine(line: string)
    requires '\n' !in line
    ensures IndexOfBlankLine(line) == None
  {
    if |line| >= 2 {
      assert line[..2][0] == line[0] && line[0] in line;
      LineHasNoBlankLine(line[1..]);
    }
  }

  // Title and body are found in the stored commit again, and what follows them
  // is one empty line, the trailers and a newline.
  lemma TitleAndBodyAreStored(header: string, t: Target, s: Strategy)
    requires IsHeader(header)
    ensures
      var read := ReadMessage(Stored(header, Message(t, Trailers(t, s))));
      && read.Some?
      && read.value == Lead(read.value, Trailers(t, s)) + "\n\n" + Trailers(t, s) + "\n"
      && t.title <= read.value
      && ('\n' !in t.title ==>
            TitleIn(Lead(read.value, Trailers(t, s))) == t.title && BodyIn(Lead(read.value, Trailers(t, s))) == t.body)
  {
    var trailers := Trailers(t, s);
    var message := Message(t, trailers);
    MessageRoundTrip(header, message);
    var lead := if t.body != "" then t.title + "\n\n" + t.body else t.title;
    assert message == lead + "\n\n" + trailers + "\n";
    assert Lead(message, trailers) == lead;
    assert t.title <= lead <= message;
    if '\n' !in t.title {
      LineHasNoBlankLine(t.title);
      if t.body != "" {
        BlankLineAfterHeader(t.title, t.body);
        assert lead[..|t.title|] == t.title && lead[|t.title| + 2..] == t.body;
      }
    }
  }

  lemma SplitFour(a: string, b: string, c: string, d: string)
    requires '\n' !in a && '\n' !in b && '\n' !in c && '\n' !in d
    ensures Split(a + ['\n'] + (b + ['\n'] + (c + ['\n'] + d)), '\n') == [a, b, c, d]
  {
    SplitNothing(d, '\n');
    SplitAtFirst(c, d, '\n');
    SplitAtFirst(b, c + ['\n'] + d, '\n');
    SplitAtFirst(a, b + ['\n'] + (c + ['\n'] + d), '\n');
  }

  // The trailers are four lines, each of one field under its own name.
  lemma TrailerLines(t: Target, s: Strategy)
    requires '\n' !in t.uri && '\n' !in t.cid && '\n' !in t.head
    ensures Split(Trailers(t, s), '\n') ==
            ["Adenosine-Pull-Request: " + t.uri, "Adenosine-Pull-Request-CID: " + t.cid, "Adenosine-Pull-Request-Head: " + t.head,
             "Adenosine-Merge-Strategy: " + if s == Squash then "squash" else "merge-commit"]
  {
    TrailersAreLines(t, s);
    SplitFour(URI_LABEL + t.uri, CID_LABEL + t.cid, HEAD_LABEL + t.head, STRATEGY_LABEL + StrategyText(s));
  }

  // --- No message is recognised twice --------------------------------------------

  // A field of a validated projection.
  predicate Plain(field: string) { '\n' !in field && ' ' !in field }

  predicate PlainTarget(t: Target) { Plain(t.uri) && Plain(t.cid) && Plain(t.head) }

  lemma Regroup(x: string, a: string, b: string, c: string)
    ensures x + a + b + c == x + (a + b + c) && x + a + b + c == x + (a + (b + c))
  {
  }

  // The trailer lines, one after the other.
  lemma TrailersAreLines(t: Target, s: Strategy)
    ensures Trailers(t, s) ==
            (URI_LABEL + t.uri) + ['\n'] + ((CID_LABEL + t.cid) + ['\n'] + ((HEAD_LABEL + t.head) + ['\n'] + (STRATEGY_LABEL + StrategyText(s))))
  {
    var uri, cid, head := URI_LABEL + t.uri + "\n", CID_LABEL + t.cid + "\n", HEAD_LABEL + t.head + "\n";
    Regroup(uri, CID_LABEL, t.cid, "\n");
    Regroup(uri + cid, HEAD_LABEL, t.head, "\n");
    Regroup(uri + cid + head, STRATEGY_LABEL, StrategyText(s), "");
    assert STRATEGY_LABEL + StrategyText(s) + "" == STRATEGY_LABEL + StrategyText(s);
    Regroup(uri, cid, head, STRATEGY_LABEL + StrategyText(s));
  }

  lemma SameTrailersSameFields(a: Target, sa: Strategy, b: Target, sb: Strategy)
    requires PlainTarget(a) && PlainTarget(b) && Trailers(a, sa) == Trailers(b, sb)
    ensures a.uri == b.uri && a.cid == b.cid && a.head == b.head && sa == sb
  {
    TrailersAreLines(a, sa);
    TrailersAreLines(b, sb);
    FirstSplit(URI_LABEL + a.uri, (CID_LABEL + a.cid) + ['\n'] + ((HEAD_LABEL + a.head) + ['\n'] + (STRATEGY_LABEL + StrategyText(sa))),
               URI_LABEL + b.uri, (CID_LABEL + b.cid) + ['\n'] + ((HEAD_LABEL + b.head) + ['\n'] + (STRATEGY_LABEL + StrategyText(sb))), '\n');
    FirstSplit(CID_LABEL + a.cid, (HEAD_LABEL + a.head) + ['\n'] + (STRATEGY_LABEL + StrategyText(sa)),
               CID_LABEL + b.cid, (HEAD_LABEL + b.head) + ['\n'] + (STRATEGY_LABEL + StrategyText(sb)), '\n');
    FirstSplit(HEAD_LABEL + a.head, STRATEGY_LABEL + StrategyText(sa), HEAD_LABEL + b.head, STRATEGY_LABEL + StrategyText(sb), '\n');
    DropPrefix(URI_LABEL, a.uri, b.uri);
    DropPrefix(CID_LABEL, a.cid, b.cid);
    DropPrefix(HEAD_LABEL, a.head, b.head);
    DropPrefix(STRATEGY_LABEL, StrategyText(sa), StrategyText(sb));
    assert |StrategyText(MergeCommit)| != |StrategyText(Squash)|;
  }

  lemma DropPrefix(p: string, x: string, y: string)
    requires p + x == p + y
    ensures x == y
  {
    assert x == (p + x)[|p|..] && y == (p + y)[|p|..];
  }

  // The number of newlines.
  function Lines(s: string): nat { if s == "" then 0 else (if s[0] == '\n' then 1 else 0) + Lines(s[1..]) }

  lemma {:induction false} LinesConcat(a: string, b: string)
    ensures Lines(a + b) == Lines(a) + Lines(b)
  {
    if a == "" {
      assert a + b == b;
    } else {
      assert (a + b)[1..] == a[1..] + b;
      LinesConcat(a[1..], b);
    }
  }

  lemma {:induction false} LinesAreNewlines(s: string)
    ensures Lines(s) == 0 <==> '\n' !in s
  {
    if s != "" {
      assert s == [s[0]] + s[1..];
      LinesAreNewlines(s[1..]);
    }
  }

  lemma LinesOfLine(line: string, rest: string)
    requires '\n' !in line
    ensures Lines(line + ['\n'] + rest) == 1 + Lines(rest)
  {
    LinesAreNewlines(line);
    LinesConcat(line + ['\n'], rest);
    LinesConcat(line, ['\n']);
    assert Lines(['\n']) == 1;
  }

  lemma TrailersHaveThreeNewlines(t: Target, s: Strategy)
    requires PlainTarget(t)
    ensures Lines(Trailers(t, s)) == 3
  {
    TrailersAreLines(t, s);
    var last := STRATEGY_LABEL + StrategyText(s);
    LinesAreNewlines(last);
    LinesOfLine(HEAD_LABEL + t.head, last);
    LinesOfLine(CID_LABEL + t.cid, (HEAD_LABEL + t.head) + ['\n'] + last);
    LinesOfLine(URI_LABEL + t.uri, (CID_LABEL + t.cid) + ['\n'] + ((HEAD_LABEL + t.head) + ['\n'] + last));
  }

  lemma TrailersStart(t: Target, s: Strategy) returns (rest: string)
    ensures Trailers(t, s) == (URI_LABEL + t.uri) + ['\n'] + rest
  {
    TrailersAreLines(t, s);
    rest := (CID_LABEL + t.cid) + ['\n'] + ((HEAD_LABEL + t.head) + ['\n'] + (STRATEGY_LABEL + StrategyText(s)));
  }

  // The first line holds one space.
  lemma FirstLinesAreEqual(p: string, a: string, b: string)
    requires Plain(a) && Plain(b) && p + (URI_LABEL + a) == URI_LABEL + b
    ensures p == ""
  {
    var word := "Adenosine-Pull-Request:";
    assert URI_LABEL == word + [' '];
    assert p + (URI_LABEL + a) == (p + word) + [' '] + a;
    assert URI_LABEL + b == word + [' '] + b;
    LastSplit(p + word, a, word, b, ' ');
    assert |p + word| == |word|;
  }

  // If the trailers of `a` end those of `b`, they are the same trailers: both
  // have four lines, so the prefix holds no newline.
  lemma NestedTrailersAreEqual(a: Target, sa: Strategy, b: Target, sb: Strategy, p: string)
    requires PlainTarget(a) && PlainTarget(b) && p + Trailers(a, sa) == Trailers(b, sb)
    ensures p == ""
  {
    TrailersHaveThreeNewlines(a, sa);
    TrailersHaveThreeNewlines(b, sb);
    LinesConcat(p, Trailers(a, sa));
    LinesAreNewlines(p);
    var restA := TrailersStart(a, sa);
    var restB := TrailersStart(b, sb);
    var line := URI_LABEL + a.uri;
    assert p + (line + ['\n'] + restA) == (p + line) + ['\n'] + restA;
    FirstSplit(p + line, restA, URI_LABEL + b.uri, restB, '\n');
    FirstLinesAreEqual(p, a.uri, b.uri);
  }

  lemma SuffixOfSuffix(text: string, short: string, long: string)
    requires HasSuffix(text, short) && HasSuffix(text, long) && |short| <= |long|
    ensures long == long[..|long| - |short|] + short
  {
  }

  // No message is recognised for two pull requests, versions, heads or
  // strategies.
  lemma RecognitionIsUnambiguous(message: string, a: Target, sa: Strategy, b: Target, sb: Strategy)
    requires PlainTarget(a) && PlainTarget(b)
    requires HasTrailers(message, Trailers(a, sa)) && HasTrailers(message, Trailers(b, sb))
    ensures a.uri == b.uri && a.cid == b.cid && a.head == b.head && sa == sb
  {
    SameLengthTrailers(TrimSpace(message), a, sa, b, sb);
    SameTrailersSameFields(a, sa, b, sb);
  }

  lemma SameLengthTrailers(text: string, a: Target, sa: Strategy, b: Target, sb: Strategy)
    requires PlainTarget(a) && PlainTarget(b)
    requires HasSuffix(text, Trailers(a, sa)) && HasSuffix(text, Trailers(b, sb))
    ensures Trailers(a, sa) == Trailers(b, sb)
  {
    var ta, tb := Trailers(a, sa), Trailers(b, sb);
    if |ta| <= |tb| {
      SuffixOfSuffix(text, ta, tb);
      NestedTrailersAreEqual(a, sa, b, sb, tb[..|tb| - |ta|]);
    } else {
      SuffixOfSuffix(text, tb, ta);
      NestedTrailersAreEqual(b, sb, a, sa, ta[..|ta| - |tb|]);
    }
  }

  // With a space in a field, a message is recognised for two: these are the
  // trailers of one pull request, and they end with those of another.
  lemma SpacesMakeRecognitionAmbiguous()
    ensures
      var a, b := Target("u", "c", "h", "", ""), Target(URI_LABEL + "u", "c", "h", "", "");
      var message := Message(b, Trailers(b, Squash));
      a.uri != b.uri && HasTrailers(message, Trailers(b, Squash)) && HasTrailers(message, Trailers(a, Squash))
  {
    var a, b := Target("u", "c", "h", "", ""), Target(URI_LABEL + "u", "c", "h", "", "");
    OwnMessageIsRecognised(b, Squash);
    LongerTrailers(a, b, Squash);
    SuffixIsTransitive(TrimSpace(Message(b, Trailers(b, Squash))), URI_LABEL, Trailers(a, Squash));
    assert |a.uri| != |b.uri|;
  }

  lemma LongerTrailers(a: Target, b: Target, s: Strategy)
    requires b.uri == URI_LABEL + a.uri && a.cid == b.cid && a.head == b.head
    ensures Trailers(b, s) == URI_LABEL + Trailers(a, s)
  {
  }

  lemma SuffixIsTransitive(text: string, p: string, suffix: string)
    requires HasSuffix(text, p + suffix)
    ensures HasSuffix(text, suffix)
  {
    assert suffix == (p + suffix)[|p|..];
  }
}
