/** The bootstrap's dependency coordinates and download checks: a Maven
    coordinate `group:artifact:version` becomes a repository path, a digest is
    written in lower-case hexadecimal, and the server's ETag header, once
    de-quoted, is the checksum a download is compared against. */
module Dependencies {
  import opened Lang
  import opened JavaStrings

  /** A Dependency: the repository path without its extension. */
  datatype Dependency = Dependency(basePath: string)
  {
    function GetBasePath(): string {
      basePath
    }

    function GetJarPath(): (p: string)
      ensures p == basePath + ".jar"
    {
      basePath + ".jar"
    }

    /** The checksum file sits next to the jar. */
    function GetJarMd5Path(): (p: string)
      ensures p == GetJarPath() + ".md5"
    {
      basePath + ".jar.md5"
    }
  }

  /** Dependency.of(dep): the coordinate split at ':'; the first three parts
      are read, so fewer than three fail at the first missing index.  Only
      the group has its dots turned into slashes. */
  function Of(dep: string): (r: Result<Dependency>)
    ensures r.Thrown? <==> |Split(dep, ':')| < 3
    ensures r.Thrown? ==> r.error == ArrayIndexOutOfBounds(|Split(dep, ':')|)
  {
    var split := Split(dep, ':');
    if |split| < 3 then Thrown(ArrayIndexOutOfBounds(|split|))
    else
      var group := split[0];
      var artifact := split[1];
      var version := split[2];
      Ok(Dependency(Replace(group, '.', '/') + "/" + artifact + "/" + version + "/" + artifact + "-" + version))
  }

  /** A coordinate of three colon-free parts, the last non-empty, splits into
      exactly those three parts. */
  lemma SplitCoordinate(group: string, artifact: string, version: string)
    requires ':' !in group && ':' !in artifact && ':' !in version && version != ""
    ensures Split(group + ":" + artifact + ":" + version, ':') == [group, artifact, version]
  {
    var dep := group + ":" + artifact + ":" + version;
    assert dep == group + [':'] + (artifact + [':'] + version);
    PiecesCons(group, artifact + [':'] + version, ':');
    PiecesCons(artifact, version, ':');
    PiecesWithoutDelimiter(version, ':');
    assert Pieces(dep, ':') == [group, artifact, version];
    assert dep[|group|] == ':';
  }

  /** Such a coordinate gives the path group-with-slashes/artifact/version/artifact-version. */
  lemma OfCoordinate(group: string, artifact: string, version: string)
    requires ':' !in group && ':' !in artifact && ':' !in version && version != ""
    ensures Of(group + ":" + artifact + ":" + version)
            == Ok(Dependency(Replace(group, '.', '/') + "/" + artifact + "/" + version + "/" + artifact + "-" + version))
  {
    SplitCoordinate(group, artifact, version);
  }

  /** The jar of such a coordinate, and its checksum file beside it. */
  lemma CoordinateFiles(group: string, artifact: string, version: string)
    requires ':' !in group && ':' !in artifact && ':' !in version && version != ""
    ensures Of(group + ":" + artifact + ":" + version).Ok?
    ensures var d := Of(group + ":" + artifact + ":" + version).value;
            d.GetJarPath() == Replace(group, '.', '/') + "/" + artifact + "/" + version + "/" + artifact + "-" + version + ".jar"
            && d.GetJarMd5Path() == d.GetJarPath() + ".md5"
  {
    OfCoordinate(group, artifact, version);
  }

  /** An empty version is dropped by split along with the trailing colon, so
      `group:artifact:` fails at index 2. */
  lemma EmptyVersionFails(group: string, artifact: string)
    requires ':' !in group && ':' !in artifact && artifact != ""
    ensures Of(group + ":" + artifact + ":") == Thrown(ArrayIndexOutOfBounds(2))
  {
    var dep := group + ":" + artifact + ":";
    assert dep == group + [':'] + (artifact + [':'] + "");
    assert dep[|group|] == ':';
    PiecesCons(group, artifact + [':'] + "", ':');
    PiecesCons(artifact, "", ':');
    assert Pieces(dep, ':') == [group, artifact, ""];
    assert [group, artifact, ""][..2] == [group, artifact];
    assert DropTrailingEmpty([group, artifact, ""]) == [group, artifact];
    assert Split(dep, ':') == [group, artifact];
  }

  /** A Java byte. */
  newtype JByte = x: int | -128 <= x < 128

  const HEX_DIGITS: string := "0123456789abcdef"

  /** b & 0xFF: the byte read as unsigned. */
  function Unsigned(b: JByte): (v: int)
    ensures 0 <= v < 256
    ensures v % 256 == (b as int) % 256
  {
    if b < 0 then b as int + 256 else b as int
  }

  /** hexArray[v >>> 4] and hexArray[v & 0x0F] for v = b & 0xFF. */
  function HighDigit(b: JByte): char {
    HEX_DIGITS[Unsigned(b) / 16]
  }

  function LowDigit(b: JByte): char {
    HEX_DIGITS[Unsigned(b) % 16]
  }

  /** The hexadecimal text of a byte sequence: two digits per byte, the high
      nibble first. */
  function Hex(bytes: seq<JByte>): (r: string)
    ensures |r| == 2 * |bytes|
    ensures forall j :: 0 <= j < |bytes| ==> r[2 * j] == HighDigit(bytes[j]) && r[2 * j + 1] == LowDigit(bytes[j])
  {
    if |bytes| == 0 then ""
    else
      var last := bytes[|bytes| - 1];
      Hex(bytes[..|bytes| - 1]) + [HighDigit(last), LowDigit(last)]
  }

  /** Every character of the text is a lower-case hexadecimal digit. */
  lemma {:induction false} HexAlphabet(bytes: seq<JByte>)
    ensures forall k :: 0 <= k < |Hex(bytes)| ==> Hex(bytes)[k] in HEX_DIGITS
  {
    if |bytes| > 0 {
      var init := bytes[..|bytes| - 1];
      var last := bytes[|bytes| - 1];
      HexAlphabet(init);
      assert Hex(bytes) == Hex(init) + [HighDigit(last), LowDigit(last)];
      assert HighDigit(last) in HEX_DIGITS && LowDigit(last) in HEX_DIGITS;
    }
  }

  /** A negative byte has its top bit set, so its first digit is 8 to f. */
  lemma NegativeByteHighDigit(b: JByte)
    requires b < 0
    ensures HighDigit(b) in "89abcdef"
  {
    assert 8 <= Unsigned(b) / 16 < 16;
  }

  /** toHexString(bytes): fills a char array two digits at a time. */
  method ToHexString(bytes: array<JByte>) returns (s: string)
    ensures s == Hex(bytes[..])
  {
    var hexChars := new char[bytes.Length * 2];
    for j := 0 to bytes.Length
      invariant forall k :: 0 <= k < j ==> hexChars[2 * k] == HighDigit(bytes[k]) && hexChars[2 * k + 1] == LowDigit(bytes[k])
    {
      var v := Unsigned(bytes[j]);
      hexChars[j * 2] := HEX_DIGITS[v / 16];
      hexChars[j * 2 + 1] := HEX_DIGITS[v % 16];
    }
    s := hexChars[..];
    var h := Hex(bytes[..]);
    forall k | 0 <= k < |s|
      ensures s[k] == h[k]
    {
      var j := k / 2;
      assert bytes[..][j] == bytes[j];
      assert k == 2 * j || k == 2 * j + 1;
    }
  }

  /** getETag: the ETag header, "" when it is absent or empty, with one pair
      of surrounding double quotes removed.  A header that is a single double
      quote both starts and ends with one, and substring(1, 0) throws (Java 8
      reports the negative length). */
  function GetETag(header: Nullable<string>): (r: Result<string>)
    ensures header.Null? || header.value == "" ==> r == Ok("")
    ensures r.Thrown? <==> header == NonNull("\"")
    ensures r.Thrown? ==> r.error == StringIndexOutOfBounds(-1)
  {
    if header.Null? || header.value == "" then Ok("")
    else
      var hash := header.value;
      if StartsWith(hash, "\"") && EndsWith(hash, "\"") then
        if |hash| < 2 then Thrown(StringIndexOutOfBounds(-1)) else Ok(hash[1..|hash| - 1])
      else Ok(hash)
  }

  /** A quoted tag comes back without its quotes. */
  lemma ETagUnquotes(tag: string)
    ensures GetETag(NonNull("\"" + tag + "\"")) == Ok(tag)
  {
    var h := "\"" + tag + "\"";
    assert h[..1] == "\"";
    assert h[|h| - 1..] == "\"";
    assert h[1..|h| - 1] == tag;
  }

  /** A header that is not wrapped in quotes comes back unchanged. */
  lemma ETagUnquotedUnchanged(header: string)
    requires !(StartsWith(header, "\"") && EndsWith(header, "\""))
    ensures GetETag(NonNull(header)) == Ok(header)
  {
  }

  /** What verifyDownload concludes from the ETag and the digest of the
      downloaded bytes. */
  datatype Verdict = Unchecked | Verified | Mismatch(message: string)

  /** The checksum is compared only when the ETag is non-empty and is not a
      "{SHA1{" tag; a mismatch is an IOException naming both values. */
  function VerifyChecksum(expected: string, digest: seq<JByte>): (v: Verdict)
    ensures v.Unchecked? <==> expected == "" || StartsWith(expected, "{SHA1{")
    ensures v.Verified? <==> expected != "" && !StartsWith(expected, "{SHA1{") && Hex(digest) == expected
    ensures v.Mismatch? ==> v.message == "Checksum verification failed: Expected " + expected + ", got " + Hex(digest)
  {
    if expected != "" && !StartsWith(expected, "{SHA1{") then
      var hash := Hex(digest);
      if hash == expected then Verified
      else Mismatch("Checksum verification failed: Expected " + expected + ", got " + hash)
    else Unchecked
  }

  lemma FirstCharRulesOutPrefix(s: string, prefix: string)
    requires |s| > 0 && |prefix| > 0 && s[0] != prefix[0]
    ensures !StartsWith(s, prefix)
  {
    if |prefix| <= |s| {
      assert s[..|prefix|][0] == s[0];
    }
  }

  lemma DigitIsNotBrace(i: int)
    requires 0 <= i < 16
    ensures HEX_DIGITS[i] != '{'
  {
  }

  /** A server that quotes the digest's own hexadecimal text verifies the
      download, whatever the digest. */
  lemma QuotedDigestVerifies(digest: seq<JByte>)
    requires |digest| > 0
    ensures GetETag(NonNull("\"" + Hex(digest) + "\"")) == Ok(Hex(digest))
    ensures VerifyChecksum(Hex(digest), digest) == Verified
  {
    ETagUnquotes(Hex(digest));
    var h := Hex(digest);
    assert h[0] == HighDigit(digest[0]);
    DigitIsNotBrace(Unsigned(digest[0]) / 16);
    FirstCharRulesOutPrefix(h, "{SHA1{");

  }
}
