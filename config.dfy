/** The connection settings: `loadConfigurations`, which reads `key=value`
    lines into a dictionary, and `DatabaseConfig`, which takes the five
    settings out of it.

    The configuration file is given as its lines (`std::getline` removes the
    line feed, a carriage return stays); a file that cannot be opened is
    `None`. */
module Config {
  import opened Wrappers
  import opened Text

  /** One `key=value` line after trimming. */
  datatype Setting = Setting(key: string, value: string)

  /** What one line adds to the dictionary: nothing for an empty line, a
      line whose first character is `#` (before any trimming) or a line
      without `=`; otherwise the trimmed text before the first `=` and the
      trimmed text after it. */
  function ParseLine(line: string): (r: Option<Setting>)
    ensures r.None? <==> line == [] || line[0] == '#' || '=' !in line
  {
    if line == [] || line[0] == '#' then None
    else
      match Find(line, '=')
      case None => None
      case Some(p) => Some(Setting(Trim(line[..p]), Trim(line[p + 1..])))
  }

  /** The dictionary built from `lines`, one line after the other; a later
      line overwrites the value of an earlier one with the same key. */
  function ParseConfig(lines: seq<string>): map<string, string>
  {
    if lines == [] then map[]
    else Store(ParseConfig(lines[..|lines| - 1]), ParseLine(lines[|lines| - 1]))
  }

  /** `configurations[key] = value` for a line that holds a setting. */
  function Store(config: map<string, string>, line: Option<Setting>): (r: map<string, string>)
    ensures line.None? ==> r == config
    ensures line.Some? ==> r.Keys == config.Keys + {line.value.key} && r[line.value.key] == line.value.value
    ensures line.Some? ==> forall key :: key in config && key != line.value.key ==> r[key] == config[key]
  {
    match line
    case None => config
    case Some(setting) => config[setting.key := setting.value]
  }

  /** Appending a line stores what it holds. */
  lemma ParseConfigAppend(lines: seq<string>, line: string)
    ensures ParseConfig(lines + [line]) == Store(ParseConfig(lines), ParseLine(line))
  {
    var all := lines + [line];
    assert all[..|all| - 1] == lines && all[|all| - 1] == line;
  }

  /** What `loadConfigurations` returns for a file: the empty dictionary
      when it cannot be opened. */
  function Configuration(file: Option<seq<string>>): map<string, string>
  {
    match file
    case None => map[]
    case Some(lines) => ParseConfig(lines)
  }

  /** `loadConfigurations`: the `getline` loop, trimming key and value in
      place and storing them in the dictionary. */
  method LoadConfigurations(file: Option<seq<string>>) returns (configurations: map<string, string>)
    ensures configurations == Configuration(file)
  {
    configurations := map[];
    if file.None? {
      return;
    }
    var lines := file.value;
    var i := 0;
    while i < |lines|
      invariant 0 <= i <= |lines|
      invariant configurations == ParseConfig(lines[..i])
    {
      var line := lines[i];
      assert lines[..i + 1] == lines[..i] + [line];
      ParseConfigAppend(lines[..i], line);
      i := i + 1;
      if line == [] || line[0] == '#' {
        continue;
      }
      var delimiterPos := Find(line, '=');
      if delimiterPos.Some? {
        var key := line[..delimiterPos.value];
        var value := line[delimiterPos.value + 1..];
        key := TrimInPlace(key);
        value := TrimInPlace(value);
        configurations := configurations[key := value];
      }
    }
    assert lines[..|lines|] == lines;
  }

  /** The two `erase` statements that trim a key or a value in place. */
  method TrimInPlace(s: string) returns (t: string)
    ensures t == Trim(s)
  {
    t := s;
    t := EraseFirst(t, FindFirstNotOf(t, Blank));
    t := EraseFrom(t, SizeAfter(FindLastNotOf(t, Blank)));
  }

  /** A line is split at its first `=`: the key is what stands before it and
      the value everything after it, later `=` signs included, both
      trimmed. */
  lemma SplitAtFirstEquals(line: string, p: nat)
    requires p < |line| && line[p] == '=' && '=' !in line[..p]
    requires line[0] != '#'
    ensures ParseLine(line) == Some(Setting(Trim(line[..p]), Trim(line[p + 1..])))
  {
    FindIsFirst(line, '=', p);
  }

  /** A line written as `key=value`, with a key free of `=` that does not
      start with `#`, and neither key nor value padded with blanks, reads
      back as that key and value; the empty key included, as for `=value`. */
  lemma WrittenLineReadsBack(key: string, value: string)
    requires '=' !in key
    requires key == [] || (key[0] != '#' && key[0] !in Blank && key[|key| - 1] !in Blank)
    requires value == [] || (value[0] !in Blank && value[|value| - 1] !in Blank)
    ensures ParseLine(key + "=" + value) == Some(Setting(key, value))
  {
    var line := key + "=" + value;
    assert line[..|key|] == key && line[|key| + 1..] == value;
    SplitAtFirstEquals(line, |key|);
    TrimKeepsUnpadded(key, Blank);
    TrimKeepsUnpadded(value, Blank);
  }

  /** A line that adds nothing can be removed from anywhere in the file
      without changing the dictionary. */
  lemma {:induction false} IgnoredLineAddsNothing(before: seq<string>, line: string, after: seq<string>)
    requires ParseLine(line).None?
    ensures ParseConfig(before + [line] + after) == ParseConfig(before + after)
    decreases |after|
  {
    if after == [] {
      assert before + [line] + after == before + [line];
      assert before + after == before;
      ParseConfigAppend(before, line);
    } else {
      var init := after[..|after| - 1];
      var last := after[|after| - 1];
      assert before + [line] + after == (before + [line] + init) + [last];
      assert before + after == (before + init) + [last];
      ParseConfigAppend(before + [line] + init, last);
      ParseConfigAppend(before + init, last);
      IgnoredLineAddsNothing(before, line, init);
    }
  }

  /** The value stored for a key is the one on the last line that has that
      key. */
  lemma {:induction false} LastOccurrenceWins(lines: seq<string>, i: nat, setting: Setting)
    requires i < |lines| && ParseLine(lines[i]) == Some(setting)
    requires forall j :: i < j < |lines| && ParseLine(lines[j]).Some? ==> ParseLine(lines[j]).value.key != setting.key
    ensures setting.key in ParseConfig(lines) && ParseConfig(lines)[setting.key] == setting.value
    decreases |lines|
  {
    var init := lines[..|lines| - 1];
    if i < |lines| - 1 {
      assert forall j :: i < j < |init| ==> init[j] == lines[j];
      LastOccurrenceWins(init, i, setting);
    }
  }

  /** Every entry of the dictionary comes from some line of the file that
      holds that key with that value. */
  lemma {:induction false} EntryFromLine(lines: seq<string>, key: string)
    requires key in ParseConfig(lines)
    ensures exists i :: 0 <= i < |lines| && ParseLine(lines[i]) == Some(Setting(key, ParseConfig(lines)[key]))
    decreases |lines|
  {
    var init := lines[..|lines| - 1];
    var last := |lines| - 1;
    if ParseLine(lines[last]).Some? && ParseLine(lines[last]).value.key == key {
      assert ParseLine(lines[last]) == Some(Setting(key, ParseConfig(lines)[key]));
    } else {
      EntryFromLine(init, key);
      var i :| 0 <= i < |init| && ParseLine(init[i]) == Some(Setting(key, ParseConfig(init)[key]));
      assert lines[i] == init[i];
    }
  }

  /** Every key that some line holds is in the dictionary. */
  lemma {:induction false} LineKeyIsEntry(lines: seq<string>, i: nat)
    requires i < |lines| && ParseLine(lines[i]).Some?
    ensures ParseLine(lines[i]).value.key in ParseConfig(lines)
    decreases |lines|
  {
    var init := lines[..|lines| - 1];
    if i < |lines| - 1 {
      assert init[i] == lines[i];
      LineKeyIsEntry(init, i);
    }
  }

  /** `config[key]` on a `std::map`: the empty string for a missing key. */
  function Lookup(config: map<string, string>, key: string): (r: string)
    ensures key !in config ==> r == ""
  {
    if key in config then config[key] else ""
  }

  /** The port setting: "3306" when the key is absent, otherwise its value,
      even when that is empty. */
  function PortSetting(config: map<string, string>): string
  {
    if "port" in config then config["port"] else "3306"
  }

  /** The keys that must have a non-empty value. */
  const RequiredKeys: set<string> := {"host", "user", "password", "database"}

  /** Whether `loadFromFile` accepts the dictionary: it is not empty and
      host, user, password and database are all non-empty. */
  predicate Usable(config: map<string, string>)
  {
    && |config| != 0
    && Lookup(config, "host") != ""
    && Lookup(config, "user") != ""
    && Lookup(config, "password") != ""
    && Lookup(config, "database") != ""
  }

  /** A usable dictionary is exactly one that holds each required key with a
      non-empty value; the check for an empty dictionary adds nothing to
      that. */
  lemma UsableIffRequiredKeysSet(config: map<string, string>)
    ensures Usable(config) <==> forall key :: key in RequiredKeys ==> key in config && config[key] != ""
  {
    if "host" in config {
      assert config.Keys != {};
    }
  }

  /** A file is usable only if, for each required key, some line holds it
      with a non-empty value. */
  lemma UsableFileNamesRequiredKeys(lines: seq<string>, key: string)
    requires Usable(ParseConfig(lines)) && key in RequiredKeys
    ensures exists i :: 0 <= i < |lines| && ParseLine(lines[i]).Some?
                        && ParseLine(lines[i]).value.key == key && ParseLine(lines[i]).value.value != ""
  {
    UsableIffRequiredKeysSet(ParseConfig(lines));
    EntryFromLine(lines, key);
  }

  /** The dictionary of a file that sets everything but the port is usable
      and connects to port 3306. */
  lemma DefaultPortScenario()
    ensures var config := map["host" := "db1", "user" := "root", "password" := "pw", "database" := "shop"];
      Usable(config) && PortSetting(config) == "3306" && Lookup(config, "host") == "db1"
  {
  }

  /** `DatabaseConfig`: the five settings, empty until `loadFromFile`. */
  class DatabaseConfig {
    var host: string
    var user: string
    var password: string
    var database: string
    var port: string

    constructor ()
      ensures host == "" && user == "" && password == "" && database == "" && port == ""
    {
      host, user, password, database, port := "", "", "", "", "";
    }

    /** `loadFromFile`: an empty dictionary fails and leaves the settings as
        they were; otherwise all five are assigned (a missing key reads as
        "", a missing port as "3306") and the load succeeds when the four
        required settings are non-empty. */
    method LoadFromFile(file: Option<seq<string>>) returns (ok: bool)
      modifies this
      ensures var config := Configuration(file);
        && ok == Usable(config)
        && (|config| == 0 ==> unchanged(this))
        && (|config| != 0 ==>
              && host == Lookup(config, "host")
              && user == Lookup(config, "user")
              && password == Lookup(config, "password")
              && database == Lookup(config, "database")
              && port == PortSetting(config))
    {
      var config := LoadConfigurations(file);
      if |config| == 0 {
        return false;
      }
      host := Lookup(config, "host");
      user := Lookup(config, "user");
      password := Lookup(config, "password");
      database := Lookup(config, "database");
      port := if "port" in config then config["port"] else "3306";
      if host == "" { return false; }
      if user == "" { return false; }
      if password == "" { return false; }
      if database == "" { return false; }
      return true;
    }
  }
}
