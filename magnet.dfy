/** The info-hash extractor of internal/qbittorrent/utils.go: given a magnet URI it returns the
    text between the first "btih:" marker and the next "&" (or the end of the string). */
module MagnetHash {
  import opened Wrappers

  /** The BitTorrent info-hash marker searched for. */
  const Marker: string := "btih:"

  /** The URI parameter delimiter that ends the hash. */
  const Delimiter: char := '&'

  /** The two ways extraction fails, with the text of the error the source returns. */
  datatype HashError = MarkerNotFound | NoHashAfterMarker {
    function Error(): string {
      match this
      case MarkerNotFound => "'btih:' not found"
      case NoHashAfterMarker => "no hash after 'btih:'"
    }
  }

  /** `sub` occurs in `s` starting at index `i`. */
  predicate OccursAt(s: string, sub: string, i: nat) {
    i + |sub| <= |s| && s[i..i + |sub|] == sub
  }

  /** `s` contains no occurrence of the marker. */
  ghost predicate NoMarker(s: string) {
    forall j: nat :: !OccursAt(s, Marker, j)
  }

  /** Go's strings.Index restricted to positions `from` and later: the first index at which
      `sub` occurs, or -1. */
  function IndexFrom(s: string, sub: string, from: nat): (r: int)
    decreases |s| - from
    ensures r == -1 || (from <= r && OccursAt(s, sub, r))
    ensures r == -1 ==> forall j: nat :: from <= j ==> !OccursAt(s, sub, j)
    ensures r != -1 ==> forall j: nat :: from <= j < r ==> !OccursAt(s, sub, j)
  {
    if from + |sub| > |s| then -1
    else if s[from..from + |sub|] == sub then from
    else IndexFrom(s, sub, from + 1)
  }

  /** Go's strings.Index: the index of the first occurrence of `sub` in `s`, or -1 if there is none. */
  function Index(s: string, sub: string): (r: int)
    ensures r == -1 <==> forall j: nat :: !OccursAt(s, sub, j)
    ensures r != -1 ==> 0 <= r && OccursAt(s, sub, r) && forall j: nat :: j < r ==> !OccursAt(s, sub, j)
  {
    IndexFrom(s, sub, 0)
  }

  /** `h` is a complete hash token of `s` starting at `start`: it is there, holds no delimiter,
      and is followed by a delimiter or by the end of `s`. */
  ghost predicate TokenAt(s: string, start: nat, h: string) {
    && start + |h| <= |s|
    && s[start..start + |h|] == h
    && Delimiter !in h
    && (start + |h| == |s| || s[start + |h|] == Delimiter)
  }

  /** GetTorrentHash: the hash token after the first marker. It fails when the marker is absent,
      and when the first marker ends the string; an empty token before a delimiter is accepted. */
  function GetTorrentHash(magnetURI: string): (r: Result<string, HashError>)
    ensures r == Failure(MarkerNotFound) <==> NoMarker(magnetURI)
    ensures r == Failure(NoHashAfterMarker) <==> Index(magnetURI, Marker) != -1 && Index(magnetURI, Marker) + |Marker| == |magnetURI|
    ensures r.Success? ==> TokenAt(magnetURI, Index(magnetURI, Marker) + |Marker|, r.value)
    ensures r.Success? && r.value == [] ==> magnetURI[Index(magnetURI, Marker) + |Marker|] == Delimiter
  {
    var btihIndex := Index(magnetURI, Marker);
    if btihIndex == -1 then Failure(MarkerNotFound)
    else
      var hashStart := btihIndex + 5;
      if hashStart >= |magnetURI| then Failure(NoHashAfterMarker)
      else
        var rest := magnetURI[hashStart..];
        var hashEnd := Index(rest, [Delimiter]);
        CharIndex(rest, Delimiter);
        if hashEnd == -1 then Success(rest)
        else Success(magnetURI[hashStart..hashStart + hashEnd])
  }

  /** Searching for a one-character string finds the first position holding that character. */
  lemma CharIndex(s: string, c: char)
    ensures Index(s, [c]) == -1 <==> c !in s
    ensures Index(s, [c]) != -1 ==> Index(s, [c]) < |s| && s[Index(s, [c])] == c && c !in s[..Index(s, [c])]
  {
    var r := Index(s, [c]);
    forall j: nat | j < |s|
      ensures OccursAt(s, [c], j) <==> s[j] == c
    {
      assert s[j..j + 1] == [s[j]];
    }
    if r != -1 {
      forall k | 0 <= k < r ensures s[..r][k] != c {
        assert !OccursAt(s, [c], k);
      }
    }
  }

  /** The marker begins with a character it contains nowhere else, so it cannot overlap itself. */
  lemma {:induction false} MarkerFirstAfter(p: string, rest: string)
    requires NoMarker(p)
    ensures Index(p + Marker + rest, Marker) == |p|
  {
    var u := p + Marker + rest;
    assert u[|p|..|p| + 5] == Marker;
    assert OccursAt(u, Marker, |p|);
    forall j: nat | j < |p|
      ensures !OccursAt(u, Marker, j)
    {
      if j + 5 <= |p| {
        assert u[j..j + 5] == p[j..j + 5];
        assert !OccursAt(p, Marker, j);
      } else {
        assert u[|p|] == 'b';
        assert u[j..j + 5][|p| - j] == 'b';
        assert Marker[|p| - j] != 'b';
      }
    }
  }

  /** A string whose first marker is its last five characters yields "no hash after". */
  lemma {:induction false} MarkerAtEndFails(p: string)
    requires NoMarker(p)
    ensures GetTorrentHash(p + Marker) == Failure(NoHashAfterMarker)
  {
    MarkerFirstAfter(p, "");
    assert p + Marker + "" == p + Marker;
  }

  /** Round trip with a delimiter: P + "btih:" + H + "&" + S yields H whenever P holds no marker
      and H no delimiter, whatever S holds. */
  lemma {:induction false} RoundTripDelimited(p: string, h: string, s: string)
    requires NoMarker(p)
    requires Delimiter !in h
    ensures GetTorrentHash(p + Marker + h + [Delimiter] + s) == Success(h)
  {
    var rest := h + [Delimiter] + s;
    var u := p + Marker + rest;
    assert u == p + Marker + h + [Delimiter] + s;
    MarkerFirstAfter(p, rest);
    assert u[|p| + 5..] == rest;
    DelimiterAfterToken(h, s);
    assert u[|p| + 5..|p| + 5 + |h|] == h;
    HashBeforeDelimiter(u, h);
  }

  /** When the first marker is followed by H and then a delimiter, the extractor yields H. */
  lemma HashBeforeDelimiter(u: string, h: string)
    requires Index(u, Marker) != -1
    requires Index(u, Marker) + |Marker| + |h| < |u|
    requires Index(u[Index(u, Marker) + |Marker|..], [Delimiter]) == |h|
    requires u[Index(u, Marker) + |Marker|..Index(u, Marker) + |Marker| + |h|] == h
    ensures GetTorrentHash(u) == Success(h)
  {
  }

  /** The first delimiter of H + "&" + S is the one right after H when H holds none. */
  lemma DelimiterAfterToken(h: string, s: string)
    requires Delimiter !in h
    ensures Index(h + [Delimiter] + s, [Delimiter]) == |h|
  {
    var rest := h + [Delimiter] + s;
    CharIndex(rest, Delimiter);
    assert rest[|h|] == Delimiter;
    assert rest[..|h|] == h;
  }

  /** Round trip to the end of the string: P + "btih:" + H yields H when H is non-empty. */
  lemma {:induction false} RoundTripToEnd(p: string, h: string)
    requires NoMarker(p)
    requires Delimiter !in h && h != []
    ensures GetTorrentHash(p + Marker + h) == Success(h)
  {
    var u := p + Marker + h;
    MarkerFirstAfter(p, h);
    assert u[|p| + 5..] == h;
    CharIndex(h, Delimiter);
  }

  /** No length or character check is made: a delimiter right after the marker gives an empty hash. */
  lemma EmptyHashAccepted(p: string, s: string)
    requires NoMarker(p)
    ensures GetTorrentHash(p + Marker + [Delimiter] + s) == Success("")
  {
    RoundTripDelimited(p, "", s);
    assert p + Marker + "" == p + Marker;
  }

  /** A string without the marker's first character holds no marker. */
  lemma NoMarkerWithoutB(p: string)
    requires 'b' !in p
    ensures NoMarker(p)
  {
    forall j: nat ensures !OccursAt(p, Marker, j) {
      if j + 5 <= |p| {
        assert p[j..j + 5][0] == p[j];
      }
    }
  }

  /** The prefix of a typical magnet URI holds no marker. */
  lemma MagnetPrefixHasNoMarker()
    ensures NoMarker("magnet:?xt=urn:")
  {
    var p := "magnet:?xt=urn:";
    assert forall k | 0 <= k < |p| :: p[k] != 'b';
    NoMarkerWithoutB(p);
  }

  /** The extractor on a typical magnet URI. */
  lemma ExtractsExampleHash(uri: string)
    requires uri == "magnet:?xt=urn:btih:ABC123&dn=test"
    ensures GetTorrentHash(uri) == Success("ABC123")
  {
    var p, h := "magnet:?xt=urn:", "ABC123";
    assert p + Marker + h + [Delimiter] + "dn=test" == uri;
    assert forall k | 0 <= k < |h| :: h[k] != Delimiter;
    MagnetPrefixHasNoMarker();
    RoundTripDelimited(p, h, "dn=test");
  }

  /** The empty-hash quirk on a concrete URI. */
  lemma ExtractsEmptyHash(uri: string)
    requires uri == "magnet:?xt=urn:btih:&dn=x"
    ensures GetTorrentHash(uri) == Success("")
  {
    var p := "magnet:?xt=urn:";
    MagnetPrefixHasNoMarker();
    EmptyHashAccepted(p, "dn=x");
    assert p + Marker + [Delimiter] + "dn=x" == "magnet:?xt=urn:btih:&dn=x";
  }
}
