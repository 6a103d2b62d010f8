/**
 * The `.env` loader `load_env_file`: each line of the file is stripped;
 * blank lines, comment lines and lines without `=` are skipped; any other
 * line is split at its first `=` into a key and a value, and the pair is
 * stored in the process environment unless the key is already set there.
 */
module EnvFile {
  import opened Wrappers
  import opened Text

  datatype Entry = Entry(key: string, value: string)

  /** The line is one `load_env_file` skips, judged on its stripped text. */
  predicate Ignored(stripped: string) {
    stripped == [] || StartsWith(stripped, "#") || '=' !in stripped
  }

  /** The entry a line of the file contributes, if any. */
  function ParseLine(line: string): (r: Option<Entry>)
    ensures r.None? <==> Ignored(Strip(line))
    ensures r.Some? ==> Strip(line) == r.value.key + "=" + r.value.value && '=' !in r.value.key
  {
    var s := Strip(line);
    if s == [] || StartsWith(s, "#") then None
    else match IndexOf(s, '=')
      case None => None
      case Some(i) =>
        SplitAround(s, i);
        Some(Entry(s[..i], s[i + 1..]))
  }

  /** A line that is not passed over splits around the first `=` of its stripped text. */
  lemma ParseLineSplitsAtFirst(line: string)
    requires !Ignored(Strip(line))
    ensures IndexOf(Strip(line), '=').Some?
    ensures var s := Strip(line); var at := IndexOf(s, '=').value;
      ParseLine(line) == Some(Entry(s[..at], s[at + 1..]))
  {
  }

  lemma SplitAround(s: string, i: nat)
    requires i < |s| && s[i] == '='
    ensures s == s[..i] + "=" + s[i + 1..]
  {
  }

  /** In `k=v` with no `=` in `k`, the first `=` is the one right after `k`. */
  lemma FirstSeparatorEndsKey(k: string, v: string)
    requires '=' !in k
    ensures IndexOf(k + "=" + v, '=') == Some(|k|)
  {
    var s := k + "=" + v;
    assert s[|k|] == '=';
    var j := IndexOf(s, '=').value;
    assert s[..|k|] == k;
  }

  /** Splitting at the first `=` is the only split whose key has no `=`. */
  lemma SplitIsUnique(k1: string, v1: string, k2: string, v2: string)
    requires k1 + "=" + v1 == k2 + "=" + v2
    requires '=' !in k1 && '=' !in k2
    ensures k1 == k2 && v1 == v2
  {
    var s := k1 + "=" + v1;
    FirstSeparatorEndsKey(k1, v1);
    FirstSeparatorEndsKey(k2, v2);
    assert k1 == s[..|k1|] == k2;
    assert v1 == s[|k1| + 1..] == v2;
  }

  /**
   * A line written as `key=value` reads back as exactly that pair, provided
   * the key holds no `=` and the line has no surrounding whitespace and does
   * not start with `#`.
   */
  lemma ParseFormattedLine(k: string, v: string)
    requires '=' !in k
    requires k == [] || (!IsSpace(k[0]) && k[0] != '#')
    requires v == [] || !IsSpace(v[|v| - 1])
    ensures ParseLine(k + "=" + v) == Some(Entry(k, v))
  {
    var line := k + "=" + v;
    assert line[0] == (if k == [] then '=' else k[0]);
    assert line[|line| - 1] == (if v == [] then '=' else v[|v| - 1]);
    ParseUnpaddedLine(line, k, v);
  }

  /** A line with no whitespace at either end that does not start with `#` splits at its first `=`. */
  lemma ParseUnpaddedLine(line: string, k: string, v: string)
    requires line == k + "=" + v && '=' !in k
    requires !IsSpace(line[0]) && !IsSpace(line[|line| - 1]) && line[0] != '#'
    ensures ParseLine(line) == Some(Entry(k, v))
  {
    UnpaddedLineHasEntry(line, |k|);
    StripKeepsUnpadded(line);
    var e := ParseLine(line).value;
    assert line == e.key + "=" + e.value && '=' !in e.key;
    SplitIsUnique(e.key, e.value, k, v);
  }

  lemma UnpaddedLineHasEntry(line: string, i: nat)
    requires i < |line| && line[i] == '='
    requires !IsSpace(line[0]) && !IsSpace(line[|line| - 1]) && line[0] != '#'
    ensures ParseLine(line).Some?
  {
    StripKeepsUnpadded(line);
    assert line[..1] == [line[0]];
    assert '=' in line;
    assert !Ignored(Strip(line));
  }

  /**
   * Setting the variable raises in the process environment: an empty name
   * is refused by `setenv`, and a NUL character in the name or the value is
   * refused when Python converts them to C strings.
   */
  predicate Rejected(e: Entry) {
    e.key == [] || '\0' in e.key || '\0' in e.value
  }

  /** How loading a file ends: every line read, or an exception at some line. */
  datatype LoadResult =
    | Loaded(env: map<string, string>)
    | Failed(env: map<string, string>, line: nat)

  /**
   * The environment after processing `lines[i..]`, starting from `env`. A
   * rejected assignment stops the loop, keeping what had been set before it.
   */
  function LoadFrom(env: map<string, string>, lines: seq<string>, i: nat): (r: LoadResult)
    requires i <= |lines|
    ensures forall k :: k in env ==> k in r.env && r.env[k] == env[k]
    ensures r.Failed? ==> i <= r.line < |lines| && ParseLine(lines[r.line]).Some?
                          && Rejected(ParseLine(lines[r.line]).value)
                          && ParseLine(lines[r.line]).value.key !in r.env
    decreases |lines| - i
  {
    if i == |lines| then Loaded(env)
    else match ParseLine(lines[i])
      case None => LoadFrom(env, lines, i + 1)
      case Some(e) =>
        if e.key in env then LoadFrom(env, lines, i + 1)
        else if Rejected(e) then Failed(env, i)
        else LoadFrom(env[e.key := e.value], lines, i + 1)
  }

  /** Every line is a candidate entry or is skipped; the entries, in file order. */
  function FileEntries(lines: seq<string>): seq<Entry> {
    if lines == [] then []
    else (match ParseLine(lines[0]) case None => [] case Some(e) => [e]) + FileEntries(lines[1..])
  }

  /** The pairs of a file as a map in which the first line naming a key wins. */
  function FirstWins(entries: seq<Entry>): map<string, string> {
    if entries == [] then map[] else FirstWins(entries[1..])[entries[0].key := entries[0].value]
  }

  /**
   * No entry is refused while its variable is still unset: each rejected
   * entry names a variable set before it, by the process or by an earlier
   * line of the file, so it is skipped.
   */
  predicate NoRefusedNewKey(env: map<string, string>, entries: seq<Entry>)
    decreases |entries|
  {
    entries == [] ||
    var e := entries[0];
    && (e.key !in env ==> !Rejected(e))
    && NoRefusedNewKey(if e.key in env then env else env[e.key := e.value], entries[1..])
  }

  /**
   * When no entry is refused while its variable is unset, loading yields
   * the file's first-wins map overlaid by the environment as it was:
   * preset variables are never overridden and every other key takes the
   * value of its first line.
   */
  lemma {:induction false} LoadMatchesFirstWins(env: map<string, string>, lines: seq<string>, i: nat)
    requires i <= |lines|
    requires NoRefusedNewKey(env, FileEntries(lines[i..]))
    ensures LoadFrom(env, lines, i) == Loaded(FirstWins(FileEntries(lines[i..])) + env)
    decreases |lines| - i
  {
    if i == |lines| {
      assert lines[i..] == [];
      assert FirstWins([]) + env == env;
    } else {
      EntriesStep(lines, i);
      var tail := FileEntries(lines[i + 1..]);
      match ParseLine(lines[i]) {
        case None =>
          assert FileEntries(lines[i..]) == [] + tail == tail;
          LoadMatchesFirstWins(env, lines, i + 1);
        case Some(e) =>
          assert FileEntries(lines[i..]) == [e] + tail;
          assert e in FileEntries(lines[i..]);
          OverlayStep(e, tail, env);
          if e.key in env {
            assert LoadFrom(env, lines, i) == LoadFrom(env, lines, i + 1);
            LoadMatchesFirstWins(env, lines, i + 1);
          } else {
            assert LoadFrom(env, lines, i) == LoadFrom(env[e.key := e.value], lines, i + 1);
            LoadMatchesFirstWins(env[e.key := e.value], lines, i + 1);
          }
      }
    }
  }

  lemma EntriesStep(lines: seq<string>, i: nat)
    requires i < |lines|
    ensures FileEntries(lines[i..]) ==
      (match ParseLine(lines[i]) case None => [] case Some(e) => [e]) + FileEntries(lines[i + 1..])
  {
    var rest := lines[i..];
    assert rest[0] == lines[i] && rest[1..] == lines[i + 1..];
  }

  lemma OverlayStep(e: Entry, tail: seq<Entry>, env: map<string, string>)
    ensures e.key in env ==> FirstWins([e] + tail) + env == FirstWins(tail) + env
    ensures e.key !in env ==> FirstWins([e] + tail) + env == FirstWins(tail) + env[e.key := e.value]
  {
    assert ([e] + tail)[1..] == tail;
  }

  /** A blank line, a comment or a line without `=` is passed over: loading goes on as from the next line. */
  lemma IgnoredLineKeepsEnvironment(env: map<string, string>, lines: seq<string>, i: nat)
    requires i < |lines| && Ignored(Strip(lines[i]))
    ensures LoadFrom(env, lines, i) == LoadFrom(env, lines, i + 1)
  {
  }

  /**
   * An assignment `os.environ` refuses (empty name, or a NUL character)
   * raises exactly when its variable is not already set; a set variable
   * skips the line before the assignment is tried.
   */
  lemma RejectedNewKeyStopsLoading(env: map<string, string>, lines: seq<string>, i: nat, e: Entry)
    requires i < |lines| && ParseLine(lines[i]) == Some(e)
    ensures LoadFrom(env, lines, i) == Failed(env, i) <==> Rejected(e) && e.key !in env
    ensures e.key in env ==> LoadFrom(env, lines, i) == LoadFrom(env, lines, i + 1)
  {
  }

  /**
   * When loading raises, the environment it leaves is exactly what loading
   * the lines before the failing one produces.
   */
  lemma {:induction false} FailedKeepsEarlierLines(env: map<string, string>, lines: seq<string>, i: nat,
                                                   failedEnv: map<string, string>, j: nat)
    requires i <= |lines| && LoadFrom(env, lines, i) == Failed(failedEnv, j)
    ensures i <= j && LoadFrom(env, lines[..j], i) == Loaded(failedEnv)
    decreases |lines| - i
  {
    if RaisesOn(env, ParseLine(lines[i])) {
      assert |lines[..j]| == i;
    } else {
      var next := AfterEntry(env, ParseLine(lines[i]));
      LoadStep(env, lines, i);
      FailedKeepsEarlierLines(next, lines, i + 1, failedEnv, j);
      PrefixLoadStep(env, lines, j, i);
    }
  }

  /** The entry (None: the line is passed over) names a variable not yet set, and `os.environ` refuses it. */
  predicate RaisesOn(env: map<string, string>, entry: Option<Entry>) {
    entry.Some? && entry.value.key !in env && Rejected(entry.value)
  }

  /** The environment after an entry (None: the line is passed over) that does not raise. */
  function AfterEntry(env: map<string, string>, entry: Option<Entry>): map<string, string> {
    if entry.Some? && entry.value.key !in env then env[entry.value.key := entry.value.value] else env
  }

  /** A line that does not raise hands loading on to the next line from the environment after it. */
  lemma LoadStep(env: map<string, string>, lines: seq<string>, i: nat)
    requires i < |lines| && !RaisesOn(env, ParseLine(lines[i]))
    ensures LoadFrom(env, lines, i) == LoadFrom(AfterEntry(env, ParseLine(lines[i])), lines, i + 1)
  {
    match ParseLine(lines[i]) {
      case None =>
      case Some(e) =>
        if e.key in env {
          assert AfterEntry(env, ParseLine(lines[i])) == env;
        } else {
          assert AfterEntry(env, ParseLine(lines[i])) == env[e.key := e.value];
        }
    }
  }

  /** Before line `j`, loading only the first `j` lines takes the same step at line `i`. */
  lemma PrefixLoadStep(env: map<string, string>, lines: seq<string>, j: nat, i: nat)
    requires i < j <= |lines| && !RaisesOn(env, ParseLine(lines[i]))
    ensures LoadFrom(env, lines[..j], i) == LoadFrom(AfterEntry(env, ParseLine(lines[i])), lines[..j], i + 1)
  {
    var prefix := lines[..j];
    assert prefix[i] == lines[i];
    LoadStep(env, prefix, i);
  }

  /** The process environment that `load_env_file` updates in place. */
  class Environment {
    var vars: map<string, string>

    constructor (initial: map<string, string>)
      ensures vars == initial
    {
      vars := initial;
    }

    /**
     * Loads the file if it exists (`file` is None when it does not). On an
     * exception the line it was raised at is returned and the variables set
     * before it stay set.
     */
    method LoadEnvFile(file: Option<seq<string>>) returns (failedAt: Option<nat>)
      modifies this
      ensures file.None? ==> vars == old(vars) && failedAt == None
      ensures file.Some? ==> LoadFrom(old(vars), file.value, 0)
                             == if failedAt.None? then Loaded(vars) else Failed(vars, failedAt.value)
    {
      failedAt := None;
      if file.None? {
        return;
      }
      var lines := file.value;
      var i := 0;
      while i < |lines|
        invariant 0 <= i <= |lines|
        invariant LoadFrom(old(vars), lines, 0) == LoadFrom(vars, lines, i)
      {
        var raised := LoadLine(lines, i);
        if raised {
          failedAt := Some(i);
          return;
        }
        i := i + 1;
      }
    }

    /**
     * One iteration of the loop: sets the variable line `i` names unless it
     * is already set; `raised` when the assignment is refused, and then
     * nothing changes.
     */
    method LoadLine(lines: seq<string>, i: nat) returns (raised: bool)
      requires i < |lines|
      modifies this
      ensures raised <==> RaisesOn(old(vars), ParseLine(lines[i]))
      ensures raised ==> vars == old(vars)
      ensures !raised ==> vars == AfterEntry(old(vars), ParseLine(lines[i]))
      ensures LoadFrom(old(vars), lines, i) == if raised then Failed(vars, i) else LoadFrom(vars, lines, i + 1)
    {
      raised := false;
      var line := Strip(lines[i]);
      if line != [] && !StartsWith(line, "#") && '=' in line {
        var at := IndexOf(line, '=').value;
        var key, value := line[..at], line[at + 1..];
        ParseLineSplitsAtFirst(lines[i]);
        RejectedNewKeyStopsLoading(vars, lines, i, Entry(key, value));
        if key !in vars {
          if Rejected(Entry(key, value)) {
            raised := true;
            return;
          }
          vars := vars[key := value];
        }
      } else {
        IgnoredLineKeepsEnvironment(vars, lines, i);
      }
    }
  }
}
