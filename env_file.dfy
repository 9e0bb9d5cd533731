/**
 * The `.env` reader that both entry points carry: the lines of the file are
 * read one by one; a line that is blank after stripping, or whose raw text
 * starts with `#`, is skipped; every other line is stripped and split once at
 * its first `=` into a key and a value, and the pair is stored in the
 * configuration dictionary, a later line overwriting an earlier one.
 */
module EnvFile {
  import opened Wrappers
  import opened Text

  /** The `.env` file as the reader finds it: absent, or the lines it iterates over. */
  datatype EnvSource = Missing | Present(lines: seq<string>)

  /** What the reader makes of one line. */
  datatype LineResult = Skipped | Entry(key: string, value: string) | NoSeparator

  /**
   * The ValueError raised by `key, value = ...` for a kept line without `=`;
   * `line` is its index in the file. The reader does not catch it.
   */
  datatype ParseError = NotEnoughValues(line: nat)

  /** The body of the reader's loop for one line. */
  function ParseLine(line: string): LineResult {
    if Strip(line) != [] && !(|line| > 0 && line[0] == '#') then
      match SplitAtFirst(Strip(line), '=')
      case None => NoSeparator
      case Some(parts) => Entry(parts.0, parts.1)
    else
      Skipped
  }

  /**
   * A line is skipped exactly when it is all white space or its raw text
   * starts with `#` (leading white space before a `#` keeps the line); a kept
   * line is an entry whose key is the stripped line's text before its first
   * `=`, or the ValueError case when the stripped line has no `=`.
   */
  lemma ParseLineMeaning(line: string)
    ensures ParseLine(line) == Skipped <==>
              || (forall k :: 0 <= k < |line| ==> IsSpace(line[k]))
              || (line != [] && line[0] == '#')
    ensures ParseLine(line).Entry? ==>
              Strip(line) == ParseLine(line).key + "=" + ParseLine(line).value && '=' !in ParseLine(line).key
    ensures ParseLine(line) == NoSeparator <==> ParseLine(line) != Skipped && '=' !in Strip(line)
  {
    StripEmptyIffBlank(line);
  }

  /**
   * The comment test looks at the raw line: a `#` after leading white space
   * does not make a comment, and such a line is an ordinary entry.
   */
  lemma IndentedHashIsKept()
    ensures ParseLine(" #a=1") == Entry("#a", "1")
  {
    assert Strip(" #a=1") == Strip("#a=1") == "#a=1";
    assert SplitAtFirst("#a=1", '=') == Some(("#a", "1")) by {
      assert "#a=1"[1..] == "a=1" && "a=1"[1..] == "=1" && "=1"[1..] == "1";
      assert SplitAtFirst("=1", '=') == Some(([], "1"));
      assert ['a'] + [] == "a" && ['#'] + "a" == "#a";
    }
  }

  /** The newline at the end of a line read from the file makes no difference to the line's result. */
  lemma LineEndIgnored(line: string)
    ensures ParseLine(line + "\n") == ParseLine(line)
  {
    StripIgnoresTrailingSpace(line, '\n');
    if line != [] {
      assert (line + "\n")[0] == line[0];
    }
  }

  /** `r` is a kept line that assigns `key`. */
  predicate Assigns(r: LineResult, key: string) {
    r.Entry? && r.key == key
  }

  /** `line` is kept and assigns `key`. */
  predicate Defines(line: string, key: string) {
    Assigns(ParseLine(line), key)
  }

  /** What the reader makes of each line, in file order. */
  function Classify(lines: seq<string>): (rs: seq<LineResult>)
    ensures |rs| == |lines| && forall i :: 0 <= i < |lines| ==> rs[i] == ParseLine(lines[i])
  {
    seq(|lines|, i requires 0 <= i < |lines| => ParseLine(lines[i]))
  }

  /**
   * The dictionary the reader holds after storing the classified lines `rs`,
   * or the error that stopped it.
   */
  function Store(rs: seq<LineResult>): (r: Result<map<string, string>, ParseError>)
    ensures r.Ok? <==> forall i :: 0 <= i < |rs| ==> rs[i] != NoSeparator
    ensures r.Err? ==>
              && r.error.line < |rs|
              && rs[r.error.line] == NoSeparator
              && forall j :: 0 <= j < r.error.line ==> rs[j] != NoSeparator
    decreases |rs|
  {
    if rs == [] then Ok(map[])
    else
      var n := |rs| - 1;
      assert forall j :: 0 <= j < n ==> rs[..n][j] == rs[j];
      match Store(rs[..n])
      case Err(e) => Err(e)
      case Ok(config) =>
        match rs[n]
        case Skipped => Ok(config)
        case Entry(key, value) => Ok(config[key := value])
        case NoSeparator => Err(NotEnoughValues(n))
  }

  /** What `load_env` / `load_config` return for the lines of an existing file. */
  function ParseLines(lines: seq<string>): (r: Result<map<string, string>, ParseError>)
    ensures r.Ok? <==> forall i :: 0 <= i < |lines| ==> ParseLine(lines[i]) != NoSeparator
    ensures r.Err? ==>
              && r.error.line < |lines|
              && ParseLine(lines[r.error.line]) == NoSeparator
              && forall j :: 0 <= j < r.error.line ==> ParseLine(lines[j]) != NoSeparator
  {
    Store(Classify(lines))
  }

  /**
   * A successful store holds exactly the keys that some kept line assigns,
   * each with the value of the last line that assigns it.
   */
  lemma {:induction false} StoredEntries(rs: seq<LineResult>, config: map<string, string>)
    requires Store(rs) == Ok(config)
    ensures forall key :: key in config <==> exists i :: 0 <= i < |rs| && Assigns(rs[i], key)
    ensures forall i :: 0 <= i < |rs| && rs[i].Entry? &&
              (forall j :: i < j < |rs| ==> !Assigns(rs[j], rs[i].key))
              ==> rs[i].key in config && config[rs[i].key] == rs[i].value
    decreases |rs|
  {
    if rs != [] {
      var n := |rs| - 1;
      var prefix := rs[..n];
      assert forall j :: 0 <= j < n ==> prefix[j] == rs[j];
      var earlier := Store(prefix).value;
      StoredEntries(prefix, earlier);
      forall key ensures key in config <==> exists i :: 0 <= i < |rs| && Assigns(rs[i], key) {
        if key in config && !Assigns(rs[n], key) {
          var i :| 0 <= i < n && Assigns(prefix[i], key);
          assert Assigns(rs[i], key);
        }
      }
      forall i | 0 <= i < |rs| && rs[i].Entry? && (forall j :: i < j < |rs| ==> !Assigns(rs[j], rs[i].key))
        ensures rs[i].key in config && config[rs[i].key] == rs[i].value
      {
        if i < n {
          assert forall j :: i < j < n ==> !Assigns(prefix[j], prefix[i].key);
        }
      }
    }
  }

  /**
   * A successful read of `lines` holds exactly the keys that some kept line
   * assigns, each with the value of the last line that assigns it; the value
   * of an earlier line for the same key is overwritten.
   */
  lemma ParsedEntries(lines: seq<string>, config: map<string, string>)
    requires ParseLines(lines) == Ok(config)
    ensures forall key :: key in config <==> exists i :: 0 <= i < |lines| && Defines(lines[i], key)
    ensures forall i, key ::
              0 <= i < |lines| && Defines(lines[i], key) &&
              (forall j :: i < j < |lines| ==> !Defines(lines[j], key))
              ==> key in config && config[key] == ParseLine(lines[i]).value
  {
    var rs := Classify(lines);
    assert forall i, key :: 0 <= i < |lines| ==> (Defines(lines[i], key) <==> Assigns(rs[i], key));
    StoredEntries(rs, config);
  }

  /** Once the store has failed, the lines after the failing one change nothing. */
  lemma {:induction false} ErrorIsFinal(rs: seq<LineResult>, k: nat)
    requires k <= |rs| && Store(rs[..k]).Err?
    ensures Store(rs) == Store(rs[..k])
    decreases |rs|
  {
    if k < |rs| {
      var n := |rs| - 1;
      assert rs[..n][..k] == rs[..k];
      ErrorIsFinal(rs[..n], k);
    } else {
      assert rs[..k] == rs;
    }
  }

  /**
   * The reader's loop: `for line in f:` with the skip test, the strip, the
   * split and the store written as the entry points write them.
   */
  method ReadLines(lines: seq<string>) returns (r: Result<map<string, string>, ParseError>)
    ensures r == ParseLines(lines)
  {
    ghost var rs := Classify(lines);
    var config: map<string, string> := map[];
    var i := 0;
    while i < |lines|
      invariant 0 <= i <= |lines|
      invariant Store(rs[..i]) == Ok(config)
    {
      var line := lines[i];
      assert rs[..i + 1][..i] == rs[..i];
      assert rs[i] == ParseLine(line);
      if Strip(line) != [] && !(|line| > 0 && line[0] == '#') {
        var parts := SplitAtFirst(Strip(line), '=');
        if parts.None? {
          ErrorIsFinal(rs, i + 1);
          return Err(NotEnoughValues(i));
        }
        config := config[parts.value.0 := parts.value.1];
      }
      i := i + 1;
    }
    assert rs[..i] == rs;
    r := Ok(config);
  }

  /** Python's `config.get(key, default)`. */
  function Get(config: map<string, string>, key: string, default: string): string {
    if key in config then config[key] else default
  }

  /** `config.get('USE_TESTNET', 'True').lower() == 'true'`. */
  function TestnetFlag(config: map<string, string>): bool {
    Lower(Get(config, "USE_TESTNET", "True")) == "true"
  }

  /** The testnet flag is on when the key is absent or its value spells `true` in any case. */
  lemma TestnetFlagIff(config: map<string, string>)
    ensures TestnetFlag(config) <==>
              "USE_TESTNET" !in config || MatchesIgnoringCase(config["USE_TESTNET"], "true")
  {
    LowerMatches(Get(config, "USE_TESTNET", "True"), "true");
  }
}
