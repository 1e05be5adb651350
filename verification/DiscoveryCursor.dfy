// The cursors between pages of the network's repositories.
module DiscoveryCursor {
  import opened Options
  import opened Texts
  import opened Base64Url

  datatype Repository = Repository(indexedAt: int, uri: string)

  const MAX_CURSOR := 4096

  // How times are printed and read, which one is the zero time, and which URIs
  // are canonical.
  datatype Formats = Formats(format: int -> string, parse: string -> Option<int>, zero: int, canonical: string -> bool)

  predicate Ascii(s: string) { forall i | 0 <= i < |s| :: s[i] as int < 128 }
  predicate Plain(s: string) { Ascii(s) && '\n' !in s }

  // A printed time is plain, ends in Z, and reads back; so is a canonical URI.
  ghost predicate Faithful(f: Formats) {
    && (forall t :: f.parse(f.format(t)) == Some(t) && Plain(f.format(t)) && f.format(t) != "" && f.format(t)[|f.format(t)| - 1] == 'Z')
    && (forall u :: f.canonical(u) ==> Plain(u))
  }

  // --- Cursors ----------------------------------------------------------------------

  function Payload(f: Formats, r: Repository): string { "v1" + ['\n'] + (f.format(r.indexedAt) + ['\n'] + r.uri) }

  function Bytes(s: string): seq<Byte>
    requires Ascii(s)
  {
    if s == "" then [] else [s[0] as int] + Bytes(s[1..])
  }

  function Text(b: seq<Byte>): string { if b == [] then "" else [b[0] as char] + Text(b[1..]) }

  lemma {:induction false} TextOfBytes(s: string)
    requires Ascii(s)
    ensures Text(Bytes(s)) == s
  {
    if s != "" {
      TextOfBytes(s[1..]);
      assert s == [s[0]] + s[1..];
    }
  }

  function EncodeCursor(f: Formats, r: Repository): Option<string> {
    if r.indexedAt == f.zero || !f.canonical(r.uri) || !Ascii(Payload(f, r)) then None
    else
      var encoded := Encode(Bytes(Payload(f, r)));
      if |encoded| > MAX_CURSOR then None else Some(encoded)
  }

  // The position in the text of a cursor.
  function PositionIn(f: Formats, text: string): Option<Repository> {
    var parts := Split(text, '\n');
    if |parts| != 3 || parts[0] != "v1" then None
    else match f.parse(parts[1])
      case None => None
      case Some(t) =>
        if parts[1] == "" || parts[1][|parts[1]| - 1] != 'Z' || parts[1] != f.format(t) || !f.canonical(parts[2]) then None
        else Some(Repository(t, parts[2]))
  }

  function DecodeCursor(f: Formats, encoded: string): Option<Repository> {
    if encoded == "" || |encoded| > MAX_CURSOR then None
    else match Decode(encoded)
      case None => None
      case Some(bytes) => if |bytes| > MAX_CURSOR then None else PositionIn(f, Text(bytes))
  }

  lemma PayloadIsPlain(f: Formats, r: Repository)
    requires Faithful(f) && f.canonical(r.uri)
    ensures Ascii(Payload(f, r))
    ensures Split(Payload(f, r), '\n') == ["v1", f.format(r.indexedAt), r.uri]
  {
    var time := f.format(r.indexedAt);
    assert Plain(time) && Plain(r.uri);
    SplitAtFirst("v1", time + ['\n'] + r.uri, '\n');
    SplitAtFirst(time, r.uri, '\n');
    SplitNothing(r.uri, '\n');
  }

  // A cursor decodes to the position it encoded.
  lemma CursorRoundTrip(f: Formats, r: Repository)
    requires Faithful(f) && f.canonical(r.uri)
    ensures EncodeCursor(f, r).Some? ==>
              EncodeCursor(f, r).value != "" && DecodeCursor(f, EncodeCursor(f, r).value) == Some(r)
  {
    PayloadIsPlain(f, r);
    var bytes := Bytes(Payload(f, r));
    Base64RoundTrip(bytes);
    TextOfBytes(Payload(f, r));
    assert f.parse(f.format(r.indexedAt)) == Some(r.indexedAt);
  }

  lemma ThreeLines(text: string)
    requires |Split(text, '\n')| == 3
    ensures
      var parts := Split(text, '\n');
      text == parts[0] + "\n" + parts[1] + "\n" + parts[2]
  {
    SplitIsTerminated(text, '\n');
    var parts := Split(text, '\n');
    var two := parts[..2];
    assert two[1..] == [parts[1]] && two[1..][1..] == [];
    assert Terminated(two[1..], '\n') == parts[1] + ['\n'];
    assert Terminated(two, '\n') == parts[0] + ['\n'] + (parts[1] + ['\n']);
  }

  lemma PositionIsPrinted(f: Formats, text: string, r: Repository)
    requires PositionIn(f, text) == Some(r)
    ensures f.canonical(r.uri) && text == "v1" + "\n" + f.format(r.indexedAt) + "\n" + r.uri
  {
    ThreeLines(text);
  }

  // Whatever is accepted is, up to line breaks, the encoding of the position that
  // it decodes to, in three lines.
  lemma AcceptedIsEncoded(f: Formats, encoded: string, r: Repository)
    requires DecodeCursor(f, encoded) == Some(r)
    ensures f.canonical(r.uri) && |encoded| <= 4096 && Decode(encoded).Some?
    ensures Text(Decode(encoded).value) == "v1" + "\n" + f.format(r.indexedAt) + "\n" + r.uri
    ensures WithoutBreaks(encoded) == Encode(Decode(encoded).value)
  {
    DecodingIsUnique(encoded, Decode(encoded).value);
    PositionIsPrinted(f, Text(Decode(encoded).value), r);
  }

  // A cursor is refused only for the zero time, for a URI that is not canonical,
  // or for being too long.
  lemma RefusedIff(f: Formats, r: Repository)
    requires Faithful(f)
    ensures f.canonical(r.uri) ==> Ascii(Payload(f, r))
    ensures EncodeCursor(f, r).None? <==>
            r.indexedAt == f.zero || !f.canonical(r.uri) || |Encode(Bytes(Payload(f, r)))| > MAX_CURSOR
  {
    if f.canonical(r.uri) {
      PayloadIsPlain(f, r);
    }
  }
}
