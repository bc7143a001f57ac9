/** `load_credentials` of src/main.rs: the key=value credential file, given as
    its sequence of lines (opening and reading the file is not modelled). */
module Credentials {
  import opened Results
  import opened RustStd

  const CLIENT_ID_KEY: string := "CLIENT_ID"
  const CLIENT_SECRET_KEY: string := "CLIENT_SECRET"

  /** What one line contributes: nothing for a blank line, for a line whose
      very first character is `#`, or for a line without `=`; otherwise the
      trimmed text before its first `=` as key and the trimmed rest as value. */
  function ParseLine(line: string): (r: Option<(string, string)>)
    ensures r.None? <==> AllWhitespace(line) || StartsWith(line, '#') || '=' !in line
    ensures r.Some? ==> exists i :: (0 <= i < |line| && line[i] == '=' && '=' !in line[..i]
      && r.value == (Trim(line[..i]), Trim(line[i + 1..])))
  {
    if Trim(line) == [] || StartsWith(line, '#') then None
    else match SplitOnce(line, '=')
      case None => None
      case Some((key, value)) =>
        var i := |key|;
        assert line[..i] == key && line[i + 1..] == value && line[i] == '=';
        Some((Trim(key), Trim(value)))
  }

  /** The map built by the loop over `lines`: each contributing line inserts
      its pair, replacing what an earlier line put under the same key. */
  function CredentialMap(lines: seq<string>): map<string, string> {
    InsertAll(lines, ParseLine)
  }

  /** Inserts the pair `parse` finds in each line, in order. Every entry of
      the result is the pair of some line. */
  function InsertAll(lines: seq<string>, parse: string -> Option<(string, string)>): (m: map<string, string>)
    ensures forall key :: key in m ==> exists i :: 0 <= i < |lines| && parse(lines[i]) == Some((key, m[key]))
  {
    if lines == [] then map[]
    else
      var init := lines[..|lines| - 1];
      var m := InsertAll(init, parse);
      assert forall i :: 0 <= i < |init| ==> init[i] == lines[i];
      match parse(lines[|lines| - 1])
      case None => m
      case Some((key, value)) => m[key := value]
  }

  /** `line` contributes a pair under `key`. */
  predicate Defines(parse: string -> Option<(string, string)>, line: string, key: string) {
    parse(line).Some? && parse(line).value.0 == key
  }

  /** A key is in the map exactly when some line defines it. */
  lemma {:induction false} InsertAllKeys(lines: seq<string>, parse: string -> Option<(string, string)>, key: string)
    ensures key in InsertAll(lines, parse) <==> exists i :: 0 <= i < |lines| && Defines(parse, lines[i], key)
  {
    if lines != [] {
      var init := lines[..|lines| - 1];
      InsertAllKeys(init, parse, key);
      assert forall i :: 0 <= i < |init| ==> init[i] == lines[i];
      if key in InsertAll(init, parse) {
        var i :| 0 <= i < |init| && Defines(parse, init[i], key);
        assert Defines(parse, lines[i], key);
      }
    }
  }

  /** Last write wins: the value under a key is the one of the last line that
      defines it. */
  lemma {:induction false} LastWriteWins(lines: seq<string>, parse: string -> Option<(string, string)>, i: int)
    requires 0 <= i < |lines| && parse(lines[i]).Some?
    requires forall j :: i < j < |lines| ==> !Defines(parse, lines[j], parse(lines[i]).value.0)
    ensures parse(lines[i]).value.0 in InsertAll(lines, parse)
    ensures InsertAll(lines, parse)[parse(lines[i]).value.0] == parse(lines[i]).value.1
  {
    if i < |lines| - 1 {
      var init := lines[..|lines| - 1];
      assert init[i] == lines[i];
      assert forall j :: i < j < |init| ==> init[j] == lines[j];
      LastWriteWins(init, parse, i);
    }
  }

  /** A contributing line gives a key without surrounding whitespace and
      without `=`, and a value without surrounding whitespace. */
  lemma ParsedPairTrimmed(line: string)
    requires ParseLine(line).Some?
    ensures var (key, value) := ParseLine(line).value;
      Trim(key) == key && '=' !in key && Trim(value) == value
  {
    var j :| 0 <= j < |line| && line[j] == '=' && '=' !in line[..j]
      && ParseLine(line).value == (Trim(line[..j]), Trim(line[j + 1..]));
    TrimIdempotent(line[..j]);
    TrimIdempotent(line[j + 1..]);
    TrimKeepsOut(line[..j], '=');
  }

  /** Keys and values are stored trimmed, and no key contains `=`: a line
      `  CLIENT_ID = abc ` is found under `CLIENT_ID` with value `abc`. */
  lemma CredentialMapTrimmed(lines: seq<string>)
    ensures forall key :: key in CredentialMap(lines) ==>
      Trim(key) == key && '=' !in key && Trim(CredentialMap(lines)[key]) == CredentialMap(lines)[key]
  {
    var m := CredentialMap(lines);
    forall key | key in m
      ensures Trim(key) == key && '=' !in key && Trim(m[key]) == m[key]
    {
      var i :| 0 <= i < |lines| && ParseLine(lines[i]) == Some((key, m[key]));
      ParsedPairTrimmed(lines[i]);
    }
  }

  /** A line whose very first character is `#` is a comment, even when it
      would otherwise assign a key. */
  lemma CommentLineIgnored(rest: string)
    ensures ParseLine(['#'] + rest) == None
  {
  }

  /** A line `key=value` that does not start with `#` is split at its first
      `=` only, so the value keeps any later `=`, and both sides are trimmed.
      A `#` after leading whitespace is therefore part of the key. */
  lemma ParseAssignment(key: string, value: string)
    requires '=' !in key
    requires !StartsWith(key + "=" + value, '#')
    ensures ParseLine(key + "=" + value) == Some((Trim(key), Trim(value)))
  {
    var line := key + "=" + value;
    assert line == key + ['='] + value;
    assert line[|key|] == '=' && !IsWhitespace('=');
    SplitOnceAt(key, '=', value);
  }

  /** `load_credentials` after the file is read: the line loop, then the two
      lookups, CLIENT_ID first. Empty values are accepted. */
  method LoadCredentials(lines: seq<string>) returns (r: Result<(string, string)>)
    ensures CLIENT_ID_KEY !in CredentialMap(lines) ==> r == Err("CLIENT_ID is missing from .env")
    ensures CLIENT_ID_KEY in CredentialMap(lines) && CLIENT_SECRET_KEY !in CredentialMap(lines)
      ==> r == Err("CLIENT_SECRET is missing from .env")
    ensures r.Ok? <==> CLIENT_ID_KEY in CredentialMap(lines) && CLIENT_SECRET_KEY in CredentialMap(lines)
    ensures r.Ok? ==> r.value == (CredentialMap(lines)[CLIENT_ID_KEY], CredentialMap(lines)[CLIENT_SECRET_KEY])
  {
    var clientCredentials: map<string, string> := map[];
    for i := 0 to |lines|
      invariant clientCredentials == InsertAll(lines[..i], ParseLine)
    {
      var line := lines[i];
      assert lines[..i + 1][..i] == lines[..i];
      if Trim(line) == [] || StartsWith(line, '#') {
        continue;
      }
      match SplitOnce(line, '=') {
        case Some((key, value)) =>
          clientCredentials := clientCredentials[Trim(key) := Trim(value)];
        case None =>
      }
    }
    assert lines[..|lines|] == lines;
    assert clientCredentials == CredentialMap(lines);
    if CLIENT_ID_KEY !in clientCredentials {
      return Err("CLIENT_ID is missing from .env");
    }
    var clientId := clientCredentials[CLIENT_ID_KEY];
    if CLIENT_SECRET_KEY !in clientCredentials {
      return Err("CLIENT_SECRET is missing from .env");
    }
    var clientSecret := clientCredentials[CLIENT_SECRET_KEY];
    r := Ok((clientId, clientSecret));
  }
}
