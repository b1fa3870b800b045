/**
 * `load_cookies_from_txt` of Instagram/get_profile_by_userid.py: reads the
 * lines of a cookie export (Netscape tab-separated records or `key=value`
 * lines) into a name -> value dictionary whose values are ASCII only.
 *
 * Opening and reading the file is not modelled: the input is the list that
 * `f.readlines()` returns, each line still carrying its newline.
 */
module InstagramCookies {
  import opened Maybe
  import opened Text

  /** What one accepted line contributes: a cookie name and its filtered value. */
  datatype Cookie = Cookie(name: string, value: string)

  /** The lines the loop passes over with `continue` before any parsing:
      blank after stripping, a comment (tested on the raw line), or the lone word `wd`. */
  predicate Skipped(line: string) {
    Strip(line) == [] || StartsWith(line, "#") || Strip(line) == "wd"
  }

  /** The skipped lines are those made only of whitespace (the empty line
      included), those starting with `#`, and `wd` with any surrounding
      whitespace. */
  lemma SkippedExactly(line: string)
    ensures Skipped(line) <==> AllSpace(line) || StartsWith(line, "#") || Strip(line) == "wd"
  {
    StripBlank(line);
  }

  /** The cookie one line defines, if any. A line holding a tab anywhere is a
      Netscape record: its stripped text is split on tabs and fields 5 and 6
      are the name and value, provided there are at least 7 fields. Otherwise a
      line holding `=` is split at its first `=`. `None` also stands for the
      line whose processing raised and was skipped. */
  function ParseLine(line: string): (r: Option<Cookie>)
    ensures r.Some? ==> !Skipped(line) && IsAscii(r.value.value)
    ensures '\t' !in line && '=' !in line ==> r.None?
  {
    if Skipped(line) then None
    else if '\t' in line then
      var parts := Split(Strip(line), '\t');
      if |parts| >= 7 then Some(Cookie(parts[5], AsciiOnly(parts[6]))) else None
    else if '=' in line then
      match SplitOnce(Strip(line), '=')
      case None => None
      case Some((key, value)) => Some(Cookie(key, AsciiOnly(value)))
    else None
  }

  /** Line `line` defines cookie `name`. */
  predicate Defines(line: string, name: string) {
    ParseLine(line).Some? && ParseLine(line).value.name == name
  }

  /** The dictionary after the lines have been processed in order, each
      accepted line assigning its cookie. */
  function Load(lines: seq<string>): (jar: map<string, string>)
    ensures forall name | name in jar :: IsAscii(jar[name])
  {
    if lines == [] then map[]
    else
      var jar := Load(lines[..|lines| - 1]);
      match ParseLine(lines[|lines| - 1])
      case None => jar
      case Some(c) => jar[c.name := c.value]
  }

  /** The loop of `load_cookies_from_txt` over the lines already read. */
  method LoadCookiesFromTxt(lines: seq<string>) returns (cookies: map<string, string>)
    ensures cookies == Load(lines)
    ensures forall name | name in cookies :: IsAscii(cookies[name])
  {
    cookies := map[];
    for i := 0 to |lines|
      invariant cookies == Load(lines[..i])
    {
      var line := lines[i];
      assert lines[..i + 1][..i] == lines[..i];
      if Strip(line) == [] || StartsWith(line, "#") || Strip(line) == "wd" {
        continue;
      }
      if '\t' in line {
        var parts := Split(Strip(line), '\t');
        if |parts| >= 7 {
          var key := parts[5];
          var value := parts[6];
          value := AsciiOnly(value);
          cookies := cookies[key := value];
        }
      } else if '=' in line {
        var split := SplitOnce(Strip(line), '=');
        if split.Some? {
          var key := split.value.0;
          var value := split.value.1;
          value := AsciiOnly(value);
          cookies := cookies[key := value];
        }
      }
    }
    assert lines[..|lines|] == lines;
  }

  // ---------------------------------------------------------------------------
  // What a single line contributes
  // ---------------------------------------------------------------------------

  /** A tab-separated record: whatever tab-free fields the stripped line is
      made of, the cookie is field 5 mapped to the filtered field 6 when there
      are at least 7 fields, and nothing otherwise, even when the line also
      holds `=`. */
  lemma TabRecord(line: string, fields: seq<string>)
    requires !Skipped(line) && '\t' in line
    requires |fields| >= 1 && Join(fields, '\t') == Strip(line)
    requires forall k | 0 <= k < |fields| :: '\t' !in fields[k]
    ensures |fields| >= 7 ==> ParseLine(line) == Some(Cookie(fields[5], AsciiOnly(fields[6])))
    ensures |fields| < 7 ==> ParseLine(line) == None
  {
    SplitJoin(fields, '\t');
  }

  /** A tab-free `key=value` line: the key is everything before the FIRST `=`
      of the stripped line and the value everything after it, later `=` kept. */
  lemma KeyValueRecord(line: string, key: string, value: string)
    requires !Skipped(line) && '\t' !in line
    requires Strip(line) == key + "=" + value && '=' !in key
    ensures ParseLine(line) == Some(Cookie(key, AsciiOnly(value)))
  {
    assert '=' in line by {
      LStripShape(line);
      RStripShape(LStrip(line));
      assert Strip(line)[|key|] == '=';
      assert Strip(line) == line[|line| - |LStrip(line)|..][..|Strip(line)|];
      assert line[|line| - |LStrip(line)| + |key|] == '=';
    }
    SplitOnceUnique(Strip(line), '=', key, value);
  }

  /** The `split('=', 1)` unpacking never raises: it always finds two parts,
      because a line holding `=` still holds it after stripping. So every
      tab-free, non-skipped line holding `=` defines a cookie. */
  lemma KeyValueLineNeverRaises(line: string)
    requires !Skipped(line) && '\t' !in line && '=' in line
    ensures ParseLine(line).Some?
  {
    StripKeeps(line, '=');
  }

  // ---------------------------------------------------------------------------
  // The whole file
  // ---------------------------------------------------------------------------

  /** A line that defines nothing leaves the whole dictionary as it was. */
  lemma RejectedLineAddsNothing(lines: seq<string>, line: string)
    requires ParseLine(line).None?
    ensures Load(lines + [line]) == Load(lines)
  {
    assert (lines + [line])[..|lines|] == lines;
  }

  /** The key set is exactly the set of names defined by some line. */
  lemma {:induction false} LoadKeys(lines: seq<string>, name: string)
    ensures name in Load(lines) <==> exists i | 0 <= i < |lines| :: Defines(lines[i], name)
  {
    if lines != [] {
      var init := lines[..|lines| - 1];
      LoadKeys(init, name);
      if exists i | 0 <= i < |lines| :: Defines(lines[i], name) {
        var i :| 0 <= i < |lines| && Defines(lines[i], name);
        if i < |lines| - 1 {
          assert Defines(init[i], name);
        }
      }
      if exists i | 0 <= i < |init| :: Defines(init[i], name) {
        var i :| 0 <= i < |init| && Defines(init[i], name);
        assert Defines(lines[i], name);
      }
    }
  }

  /** The line at index `i` sets its cookie in the dictionary built from the
      lines up to and including it. */
  lemma LoadSetsLine(lines: seq<string>, i: nat)
    requires i < |lines| && ParseLine(lines[i]).Some?
    ensures var c := ParseLine(lines[i]).value;
      c.name in Load(lines[..i + 1]) && Load(lines[..i + 1])[c.name] == c.value
  {
    assert lines[..i + 1][..i] == lines[..i];
  }

  /** Lines after index `k` that do not define `name` leave its entry as the
      first `k` lines left it. */
  lemma {:induction false} LoadUnaffectedAfter(lines: seq<string>, k: nat, name: string)
    requires k <= |lines|
    requires forall j | k <= j < |lines| :: !Defines(lines[j], name)
    ensures (name in Load(lines)) == (name in Load(lines[..k]))
    ensures name in Load(lines[..k]) ==> Load(lines)[name] == Load(lines[..k])[name]
  {
    if k < |lines| {
      var init := lines[..|lines| - 1];
      assert init[..k] == lines[..k];
      assert forall j | k <= j < |init| :: init[j] == lines[j];
      LoadUnaffectedAfter(init, k, name);
      assert !Defines(lines[|lines| - 1], name);
    } else {
      assert lines[..k] == lines;
    }
  }

  /** Last write wins: the value stored for a name is the one from the last
      line that defines it. */
  lemma LoadLastWins(lines: seq<string>, i: nat)
    requires i < |lines| && ParseLine(lines[i]).Some?
    requires forall j | i < j < |lines| :: !Defines(lines[j], ParseLine(lines[i]).value.name)
    ensures var c := ParseLine(lines[i]).value;
      c.name in Load(lines) && Load(lines)[c.name] == c.value
  {
    LoadSetsLine(lines, i);
    LoadUnaffectedAfter(lines, i + 1, ParseLine(lines[i]).value.name);
  }
}
